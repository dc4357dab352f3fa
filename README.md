# Pomodoro timer — a Dafny model

This project models the logic of a browser Pomodoro timer built from React
components. It covers three parts:

- **The timer card** (`src/components/PomodoroTimer.tsx`).
  - A focus/break countdown with start/pause, reset and mode switch.
  - A completed-sessions counter and a progress ring.
  - The `mm:ss` display of the remaining time.
- **The floating side panel** (`src/components/Sidebar.tsx`).
  - The buttons that step the focus duration (5-minute steps, 5–60 minutes) and the break duration (1-minute steps, 1–30 minutes).
  - The rule that at most one panel (notes, tasks, settings) is open.
  - Dragging the panel and clamping it on window resize.
  - The notes text and the notification/sound switches, and their storage in the browser's local storage.
- **The task panel** (`src/components/TaskList.tsx`).
  - Adding, checking off and deleting tasks.
  - The Total / Done / pomodoro counters.

Files:

- `wrappers.dfy`: the `Option` type. It stands for JavaScript's `null`/`undefined` and for a missing storage key.
- `decimal.dfy`: `Number.prototype.toString` for non-negative integers below 10^21 (the range where JavaScript prints plain digits), `padStart`, and the decimal reading that inverts them.
- `session.dfy` (module `TimerSession`): the timer's state as a value.
  - One function per transition: button presses, the settings callbacks, one tick, and the expiry branch.
  - Lemmas about every state reachable from page load.
  - Lemmas about a countdown running to its end.
- `pomodoro_timer.dfy` (module `PomodoroTimer`): the card's `formatTime` and the lemmas about it.
  - Class `Timer`, whose fields are the component's state variables.
  - Each method updates the fields in place.
  - Each method states its new fields and ties them to the matching `TimerSession` function.
- `sidebar.dfy` (module `Sidebar`): the step and clamp expressions, `toggleSection`, the storage encoding and the permission rule as functions.
  - Class `Sidebar`, whose methods are the component's event handlers and effects.
- `task_list.dfy` (module `TaskList`): the task list.
  - The list is only ever replaced by a new array, so every operation is a function on `seq<Task>`.
  - `String.prototype.trim` is included.

Modelling choices:

- **Durations and time.** Durations and the countdown are whole seconds (`nat`).
- **Progress.** The ring's percentage is an exact `real` equal to `left / total * 100`.
- **Inputs from the environment become parameters:**
  - `Date.now()` is the `now` parameter.
  - The window size, the pointer and the panel's rectangle are parameters.
  - The result of the notification-permission request is the `PermissionOutcome` parameter.
  - Local storage is a `map<string, string>` held in the `Sidebar` object.
- **The timer effect.** The `useEffect` of `PomodoroTimer.tsx:65-95` is modelled by its branches: `Timer.Tick`, `Timer.Expire`, and `Timer.RunEffect`, which picks between them. Each call stands for one run of the effect body. A run that ticks stands for one delivery of the one-second interval. A run that expires stands for the effect re-running right after the render in which the last tick brought `timeLeft` to 0; no interval is involved.

Where the code is followed rather than how the timer is usually described:

- **Expiry.** The expiry branch (`PomodoroTimer.tsx:74`) fires whenever the countdown is at zero, running or not. `TimerSession.Expire` and `Timer.Expire` therefore require only `timeLeft == 0`.
- **Duration callbacks.** `handleFocusTimeChange` and `handleBreakTimeChange` store the value they are given without clamping. The bounds come from the panel's step buttons (`Sidebar.FocusDecrement` and the others). `TimerSession.ReachableStatesSettled` proves that every duration reachable through them stays on the step grid.
- **Progress lag.** A tick sets the ring from the time left *before* the decrement. The ring therefore lags the digits by one second, and is still above 0 % after the last tick. `TimerSession.Tick` states this exactly.
- **Toggling a panel twice.** Toggling the same panel twice restores the original state only when that panel, or no panel, was open. When another panel was open, the two presses leave all panels closed. `Sidebar.ToggleSectionTwice` states the exact outcome.
- **Clearing the notes.** The settings effect does not store an empty notes text (`Sidebar.tsx:85`). Only "Save & Close" writes it. `Sidebar.PersistThenLoad` shows that after the effect alone, a reload brings the previous notes back.

## Model

| member | source | states |
|---|---|---|
| Decimal.ToDecimal | src/components/PomodoroTimer.tsx:27-28 | `toString` of a whole number is a non-empty digit string. It has no leading zero, one digit exactly below 10 and at most two exactly below 100, and it reads back as the number. |
| Decimal.ToDecimalInjective | src/components/TaskList.tsx:35 | Distinct whole numbers give distinct decimal strings. Clock readings (about 1.7·10^12) are far below 10^21, so the ids of tasks added at different times differ. |
| Decimal.PadStart | src/components/PomodoroTimer.tsx:27-29 | `padStart(width, fill)`: the result is `max(width, |s|)` long, ends with `s`, and is `fill` before it. |
| Decimal.ParseZeroPadded | src/components/PomodoroTimer.tsx:27-29 | Zero-padding a digit string does not change the number it reads as. |
| PomodoroTimer.PaddedField | src/components/PomodoroTimer.tsx:27-29 | A padded field has at least two digits, exactly two iff the number is below 100, and reads back as the number. |
| PomodoroTimer.ClockValues | src/components/PomodoroTimer.tsx:24-30 | The fields are `Math.floor(s / 60)` and `s % 60` padded. The seconds field is two digits and below 60, the minutes field at least two digits, and minutes*60 + seconds equals the input. |
| PomodoroTimer.FormatTimeReadsBack | src/components/PomodoroTimer.tsx:24-30 | `FormatTime` models `formatTime`. Reading `FormatTime(s)` back as `minutes:ss` with the independent reader `ParseClock` gives exactly `s`, so the display loses no information. |
| PomodoroTimer.FormatTimeWidth | src/components/PomodoroTimer.tsx:24-30 | The display is five characters (`mm:ss`) exactly when the time is under 100 minutes. |
| PomodoroTimer.FormatTimeInjective | src/components/PomodoroTimer.tsx:24-30 | Different times never show the same text. |
| PomodoroTimer.Timer.constructor | src/components/PomodoroTimer.tsx:12-18 | Starts as 25 minutes of focus, 5 minutes of break, paused, full ring, no sessions. |
| PomodoroTimer.Timer.ToggleTimer | src/components/PomodoroTimer.tsx:32-34 | Flips `isRunning` and changes no other field. |
| PomodoroTimer.Timer.ResetTimer | src/components/PomodoroTimer.tsx:36-40 | Paused, full ring, countdown at the current mode's length; mode, sessions and durations unchanged. |
| PomodoroTimer.Timer.SwitchMode | src/components/PomodoroTimer.tsx:42-47 | Other mode at its full length, paused, full ring; sessions and durations unchanged. |
| PomodoroTimer.Timer.HandleFocusTimeChange | src/components/PomodoroTimer.tsx:49-55 | Stores the focus length. In focus mode it restarts the countdown at that length with a full ring. In break mode the countdown and ring are untouched. |
| PomodoroTimer.Timer.HandleBreakTimeChange | src/components/PomodoroTimer.tsx:57-63 | The mirror image for the break length. |
| PomodoroTimer.Timer.Tick | src/components/PomodoroTimer.tsx:68-73 | Under the guard `isRunning && timeLeft > 0`: the countdown drops by exactly one, the ring is set from the pre-decrement time over the active length, and nothing else changes. |
| PomodoroTimer.Timer.Expire | src/components/PomodoroTimer.tsx:74-92 | At zero: stop and start the chime, full ring. From focus: one more session and a break at its length. From break: focus at its length, sessions kept. |
| PomodoroTimer.Timer.RunEffect | src/components/PomodoroTimer.tsx:65-95 | One run of the effect: a tick, the expiry branch, or no change. The chime sounds exactly when the countdown was at zero. |
| TimerSession.Initial | src/components/PomodoroTimer.tsx:12-18 | The page-load state: 1500 s of focus, 300 s of break, paused, no sessions, within the settings grid. |
| TimerSession.ProgressPercent | src/components/PomodoroTimer.tsx:72 | `left / total * 100` exactly. It is positive when time is left and at most 100 while `left <= total`. |
| TimerSession.ToggleTimer | src/components/PomodoroTimer.tsx:32-34 | Flips running. The state is valid or settled after it exactly when it was before. |
| TimerSession.ResetTimer | src/components/PomodoroTimer.tsx:36-40 | Paused, countdown equal to the active length, mode and sessions kept, validity restored. |
| TimerSession.SwitchMode | src/components/PomodoroTimer.tsx:42-47 | Mode flipped, countdown equal to the new mode's length, paused, sessions never changed. |
| TimerSession.FocusTimeChange | src/components/PomodoroTimer.tsx:49-55 | Countdown and ring reset only in focus mode. In break mode the countdown is kept. Validity is preserved. |
| TimerSession.BreakTimeChange | src/components/PomodoroTimer.tsx:57-63 | Countdown and ring reset only in break mode. Validity is preserved. |
| TimerSession.Tick | src/components/PomodoroTimer.tsx:68-73 | One less second. `progress * active length == previous timeLeft * 100`, so the ring is never 0 after a tick. Validity is preserved. |
| TimerSession.Expire | src/components/PomodoroTimer.tsx:74-92 | Paused, full ring, other mode at its full length. A session is counted iff a focus period ended. Settled states stay settled. |
| TimerSession.Effect | src/components/PomodoroTimer.tsx:65-95 | Keeps every state valid and settled. Sessions grow by one exactly when a focus countdown is at zero. |
| TimerSession.Apply | src/components/PomodoroTimer.tsx:32-95 | Any button, settings step or effect run keeps the state valid and settled. Only the effect at the end of a focus period counts a session. |
| TimerSession.Run | src/components/PomodoroTimer.tsx:32-95 | A sequence of events keeps validity and the grid. Sessions grow by at most one per event. |
| TimerSession.ReachableStatesSettled | src/components/PomodoroTimer.tsx:12-95 | From page load: `0 <= timeLeft <= active length`, the ring within 0..100 %, and both durations on their step grids (active length 60..3600). |
| TimerSession.Ticks | src/components/PomodoroTimer.tsx:68-73 | `n` ticks of a running timer take exactly `n` seconds off and change neither mode, sessions nor durations. |
| TimerSession.Elapsed | src/components/PomodoroTimer.tsx:65-95 | Any number of effect runs keeps the state valid. |
| TimerSession.ElapsedIsTicks | src/components/PomodoroTimer.tsx:68-74 | While time is left, each effect run of a running timer is exactly one tick. |
| TimerSession.CountdownCompletes | src/components/PomodoroTimer.tsx:65-95 | With `N` seconds left, exactly `N` ticks happen, then the expiry branch: the other mode, paused, at its length, with a session counted iff focus ended. |
| TimerSession.FirstFocusSession | src/components/PomodoroTimer.tsx:12-95 | Start from page load and let 1501 effect runs pass: one session, a paused 5-minute break, full ring. |
| Sidebar.StepDown | src/components/Sidebar.tsx:314-316 | `Math.max(lo, t - step)`: never below `lo`, never above `t`, exactly `t - step` until the bound. |
| Sidebar.StepUp | src/components/Sidebar.tsx:336-338 | `Math.min(hi, t + step)`: never above `hi`, never below `t`, exactly `t + step` until the bound. |
| Sidebar.FocusDecrement | src/components/Sidebar.tsx:314-316 | Stays in [300, 3600] and on multiples of 300. Never increases. 300 is a fixed point. |
| Sidebar.FocusIncrement | src/components/Sidebar.tsx:336-338 | Stays in [300, 3600] and on multiples of 300. Never decreases. 3600 is a fixed point. |
| Sidebar.BreakDecrement | src/components/Sidebar.tsx:362-364 | Stays in [60, 1800] and on multiples of 60. Never increases. 60 is a fixed point. |
| Sidebar.BreakIncrement | src/components/Sidebar.tsx:384-386 | Stays in [60, 1800] and on multiples of 60. Never decreases. 1800 is a fixed point. |
| Sidebar.StepsUndoEachOther | src/components/Sidebar.tsx:314-338 | Away from the bounds, "+" after "-" and "-" after "+" give the original value back. |
| Sidebar.ToggledSection | src/components/Sidebar.tsx:130-136 | The result is no panel exactly when the pressed panel was the open one. Otherwise it is that panel and no other. |
| Sidebar.ToggleSectionTwice | src/components/Sidebar.tsx:130-136 | Two presses of the same icon restore the state when that panel or none was open, and close everything when another was open. |
| Sidebar.DragCoordinate | src/components/Sidebar.tsx:114-117 | The new coordinate is at most the window extent minus the margin. It is at least 0 when the window is at least the margin wide. It follows the pointer exactly inside those bounds, is exactly 0 before the left or top edge, and exactly on the far edge past it. |
| Sidebar.ResizeCoordinate | src/components/Sidebar.tsx:143-147 | Never moves right or down, restores the upper bound, keeps an in-bounds coordinate where it was, and puts an out-of-bounds one exactly on the edge. |
| Sidebar.ResizeIdempotent | src/components/Sidebar.tsx:143-147 | Resizing twice to the same window equals resizing once. |
| Sidebar.GetItem | src/components/Sidebar.tsx:63-75 | `getItem`: a value exactly when the key is stored, and then the stored value. |
| Sidebar.DecodeFlag | src/components/Sidebar.tsx:67-78 | A stored flag is on exactly when the stored text is `"true"`. A missing key reads as off. |
| Sidebar.EncodeFlag | src/components/Sidebar.tsx:88-92 | A flag is written as `"true"` or `"false"` and decodes back to itself. |
| Sidebar.LoadNotes | src/components/Sidebar.tsx:61-66 | The stored notes, or the empty text when none are stored. |
| Sidebar.PersistSettings | src/components/Sidebar.tsx:84-93 | Both flags are always written. The notes are written only when non-empty. No other key is touched. |
| Sidebar.PersistThenLoad | src/components/Sidebar.tsx:61-93 | After the settings effect, a reload reads both flags as they were. The notes come back as they were when non-empty, and as the previously stored notes when cleared. |
| Sidebar.ToggledNotifications | src/components/Sidebar.tsx:419-440 | Notifications end up on exactly when they were off and permission was granted. Turning them off is unconditional. A denied or failed request leaves them off. |
| Sidebar.Sidebar.constructor | src/components/Sidebar.tsx:58-78 | No panel open, position (0, 100). Notes and the two flags are read from storage. |
| Sidebar.Sidebar.Mount | src/components/Sidebar.tsx:96-102 | The panel moves to 80 pixels from the right edge at height 100 and is marked mounted. |
| Sidebar.Sidebar.MouseDown | src/components/Sidebar.tsx:104-110 | Without the panel element nothing changes. Otherwise a drag starts with the grab offset inside the panel. |
| Sidebar.Sidebar.MouseMove | src/components/Sidebar.tsx:112-118 | Outside a drag the position is unchanged. During a drag both coordinates follow the pointer, held within the window. |
| Sidebar.Sidebar.MouseUp | src/components/Sidebar.tsx:120-124 | The drag ends. |
| Sidebar.Sidebar.Resize | src/components/Sidebar.tsx:142-148 | Both coordinates are clamped back inside the window and never grow. |
| Sidebar.Sidebar.ToggleSection | src/components/Sidebar.tsx:130-136 | The open panel becomes `ToggledSection` of the previous one. |
| Sidebar.Sidebar.CloseSection | src/components/Sidebar.tsx:193 | The close button leaves no panel open. |
| Sidebar.Sidebar.EditNotes | src/components/Sidebar.tsx:215 | The notes become the text typed. |
| Sidebar.Sidebar.SaveAndClose | src/components/Sidebar.tsx:221-224 | The notes are stored even when empty, and the panel closes. |
| Sidebar.Sidebar.ToggleNotifications | src/components/Sidebar.tsx:419-440 | The flag becomes `ToggledNotifications` of the old flag and the permission outcome. |
| Sidebar.Sidebar.ToggleSound | src/components/Sidebar.tsx:456-461 | The sound flag is negated. |
| Sidebar.Sidebar.Persist | src/components/Sidebar.tsx:84-93 | The store becomes `PersistSettings` of the old store and the current notes and flags. |
| TaskList.LeadingWhiteSpace | src/components/TaskList.tsx:31 | The length of the leading white space: everything in it is white space, and the character after it is not. |
| TaskList.TrailingWhiteSpace | src/components/TaskList.tsx:31 | The length of the trailing white space: everything in it is white space, and the character before it is not. |
| TaskList.Trim | src/components/TaskList.tsx:31 | `trim()`: an infix of the input with only white space around it and none at its ends. It is empty exactly when the input is all white space. |
| TaskList.TrimIdempotent | src/components/TaskList.tsx:36 | Trimming an already trimmed title changes nothing. |
| TaskList.AddTask | src/components/TaskList.tsx:29-44 | Blank input changes neither the list nor the field. Otherwise exactly one new task, built by `NewTask` from the object literal at lines 34-40, is put in front: trimmed title, not done, no completion time, 0 pomodoros, created now, id the decimal time. The old tasks follow in order and the field is cleared. |
| TaskList.Toggled | src/components/TaskList.tsx:59-63 | `completed` flips. `completedAt` is present exactly when the task is now done, and is then the click time. The other fields are kept. |
| TaskList.ToggleTask | src/components/TaskList.tsx:46-68 | Same length and order. Every task with the id is toggled and every other task is identical. |
| TaskList.ToggleTaskTwice | src/components/TaskList.tsx:46-68 | Two toggles of the same id restore every task's `completed` flag. Other tasks, and open tasks without a completion time, come back identical. |
| TaskList.CountId | src/components/TaskList.tsx:71 | The number of tasks with the id. It is zero exactly when no task has it. |
| TaskList.DeleteTask | src/components/TaskList.tsx:70-72 | Removes exactly the tasks with the id: the length drops by their number, and membership is "was there and has another id". Without a match the list is unchanged. |
| TaskList.DeleteTaskSplits | src/components/TaskList.tsx:70-72 | The filter distributes over concatenation, so the kept tasks stay in their order. |
| TaskList.DeleteTaskIdempotent | src/components/TaskList.tsx:70-72 | Deleting the same id twice equals deleting it once. |
| TaskList.OperationsKeepWellFormed | src/components/TaskList.tsx:29-72 | Adding, toggling and deleting keep "`completedAt` present iff done" for every task. |
| TaskList.CompletedTasks | src/components/TaskList.tsx:82 | `filter(t => t.completed)`: exactly the done tasks, never more than all of them. |
| TaskList.CompletedTasksSplits | src/components/TaskList.tsx:82 | The filter distributes over concatenation, so the done tasks keep their order and repetitions. With the membership contract this pins the filter down. |
| TaskList.DoneCount | src/components/TaskList.tsx:82 | Done is never more than Total. |
| TaskList.DoneCountSplits | src/components/TaskList.tsx:82 | Done adds up along the list. With `DoneCountSingle`, Done is exactly the number of done tasks. |
| TaskList.DoneCountSingle | src/components/TaskList.tsx:82 | A single task contributes 1 to Done when done and 0 when open. |
| TaskList.ReduceIsSum | src/components/TaskList.tsx:85 | `ReducePomodoros` models the `reduce` as a left fold. From any start value it equals the start value plus the sum of the counts. |
| TaskList.PomodoroTotal | src/components/TaskList.tsx:85 | The `reduce` from 0 equals the sum of `pomodoroCount` over all tasks. |
| TaskList.AddTaskCounts | src/components/TaskList.tsx:79-85 | Adding raises Total by one (or by none on blank input) and keeps Done and the pomodoro total. |
| TaskList.ToggleTaskCounts | src/components/TaskList.tsx:79-85 | Toggling keeps Total and the pomodoro total. |
| TaskList.DeleteTaskCounts | src/components/TaskList.tsx:79-85 | Deleting never raises Done or the pomodoro total. |

## Left out

- Rendering, styles and animation: presentation only.
- The progress ring's geometry (`Math.PI`, `strokeDashoffset`): floating-point display arithmetic. The model stops at the exact percentage.
- `setInterval`/`clearInterval` and real-time behaviour. One call of `Timer.RunEffect` stands for one run of the effect body. Drift, a cleared interval that never fires, and React's batching of state updates are not modelled.
- TimerSession.Run and TimerSession.Apply allow more event orders than the source. In the source, the expiry run follows the render of the last tick immediately, before any button press. The model also allows a press in between. The invariants proved over all event sequences therefore hold for the source's runs as well.
- The chime. `new Audio(...).play()` and its ignored rejection are an asynchronous browser call. The model only counts chime starts in the ghost field `Timer.chimes`.
- `Notification.requestPermission`, the `toast` messages and `confetti` are asynchronous browser and library calls. The permission result is an input; messages and confetti are not modelled.
- The `pomodoro-tasks` storage and its `JSON.stringify`/`JSON.parse` are library serialisation into an external store. The task list starts from a given sequence.
- The server-side `typeof window === "undefined"` branches of the initialisers: only the browser path is modelled.
- The theme switch: the theme provider it calls is not part of this model.
- Registering and removing the `mousemove`/`mouseup` and `resize` listeners. The handlers are methods called directly, and `isDragging` decides whether a move has effect.
- `src/components/PomodoroSettings.tsx` is not part of this model: the timer never uses it.
- `src/app/layout.tsx` and `src/components/ui/switch.tsx` are not part of this model: they hold wiring and presentation only.
- TaskList.AddTask: both `Date.now()` calls of one submit read the same `now`. The source could, in principle, see two different milliseconds.
- TaskList.ToggleTask: every matching task gets the same `now`. The source calls `Date.now()` once per match inside the `map` (line 62), so several tasks sharing an id could get different completion times.
- Decimal.ToDecimal: models `toString` only as plain digits. JavaScript prints exponent notation from 10^21 on, and integers above 2^53 are not all exact doubles. Every value the app formats is far below both limits: `seconds / 60`, `seconds % 60`, and `Date.now()` at about 1.7·10^12.
- Sidebar.DragCoordinate and the other position members work on exact reals. Pixel coordinates are IEEE doubles in the browser; rounding is not modelled.
- TaskList.Trim: characters are Dafny `char`s. Surrogate pairs are not modelled, and none of the white-space characters `trim` removes needs one.
