# Barrier controller of the barrier-control dashboard

The dashboard page (`src/pages/Index.tsx`) simulates a vehicle barrier. The
status is declared as `closed`, `open` or `moving`, and it starts `closed`. The
"open" button is disabled while the status is `moving` or `open`, the "close"
button while it is `moving` or `closed`. A click sets the status to `moving` and
starts an animation. When the animation reaches its end, the status is set to
the action string (`'open'` or `'close'`), the operation counter goes up by one,
the time of the last operation is stamped, and a log entry by the operator is
put at the head of the activity log. The log is most-recent-first and keeps at
most five entries. A badge shows the status with a colour and a label; a value
outside the three declared statuses gets a fallback colour and label.

Storing the action string means that a completed close leaves the status
`'close'`, not `'closed'` (see "## Findings"). The model has both versions:
the completion as written (`CompleteStepAsWritten`, with the extra status value
`CloseLiteral`), and the intended one (`CompleteStep`, which sets `closed`).
Sequences of events take a `Mode` (`Intended` or `AsWritten`) that chooses
between the two. The counter and log facts are proved for both modes; the
invariant and the alternation of open and close only for `Intended`. The class
uses the intended completion.

The model has three modules:

- `Wrappers` holds `Option`. It is the type of the log record's optional
  `reason`, and of `pending`, the action whose animation is running.
- `Barrier` holds the values and functions:
  - the status, action and log-record types; `Status` has a fourth value,
    `CloseLiteral`, for the string `'close'`;
  - the button guards `CanOpen`, `CanClose` and `CanStart`;
  - the badge mappings `StatusColor` and `StatusText`;
  - the bounded log update `PushLog` and the operator's entry `ManualEntry`;
  - the page state `Panel` with its steps `StartStep`, `CompleteStep` and
    `CompleteStepAsWritten`;
  - `Step`, `Run` and `Added`, which apply a click or an animation finish, or a
    sequence of them, in either mode, and collect the entries they log;
  - the invariant `Inv` of every state reachable with the intended completion,
    and the lemmas about whole runs;
  - the lemmas that show where the completion as written departs from the
    intended one.
- `BarrierPage` holds the class `BarrierController`. Its fields
  `status`, `rotation`, `lastOperation`, `operationCount` and `logs` are the
  component's state variables. `pending` is not one: it stands for the `action`
  that the `animateRotation` closure captures while the animation runs (lines
  46, 55 and 70). The methods `Start`, `Complete` and `Click` change the fields
  in place. Each method's postcondition ties the new `Snapshot()` to the
  matching `Barrier` step. The module ends with four client methods that replay
  the page's basic scenarios.

Modelling choices:

- The animation loop is split into two steps. `Start` is the synchronous part
  of `handleBarrierAction` (line 47). `Complete` is the branch taken when the
  last frame runs (lines 69-83).
- `handleBarrierAction` itself checks nothing. The only guard is the buttons'
  `disabled` predicates (lines 206 and 214). So the guard is `Start`'s
  precondition, and `Click` (and `Step` on `Press`) models a click on a button
  that may be disabled: nothing happens when it is.
- Clock readings are an integer instant passed in. A completion at `now` uses
  one reading for the entry's id, its timestamp and `lastOperation`. Likewise
  the initial state uses one instant, `loadTime`, for the mount time and the
  three seed offsets. Log ids are kept as that number rather than its decimal
  string.
- `rotation` records only the angle at rest: 0 closed, -90 open. Completion
  sets it to the target angle of line 50. That is where the easing curve
  ends, since it equals 1 at progress 1.

## Model

| member | source | states |
|---|---|---|
| `Barrier.Target` | src/pages/Index.tsx:70 | the intended terminal status of an action: never `moving` or `'close'`; `open` exactly for the open action, `closed` exactly for the close action |
| `Barrier.TargetRotation` | src/pages/Index.tsx:50 | the arm's target angle is -90 exactly for open and 0 exactly for close |
| `Barrier.ReasonFor` | src/pages/Index.tsx:79 | the manual-open reason is used exactly for the open action, the manual-close reason exactly for the close action |
| `Barrier.CanOpen` | src/pages/Index.tsx:206 | the open button is enabled exactly when the status is `closed` or the stray `'close'` |
| `Barrier.CanClose` | src/pages/Index.tsx:214 | the close button is enabled exactly when the status is `open` or the stray `'close'` |
| `Barrier.CanStart` | src/pages/Index.tsx:204-220 | an action may start exactly when the status is not `moving` and not the action's intended target, i.e. exactly when it is the opposite target or the stray `'close'` |
| `Barrier.StatusColor` | src/pages/Index.tsx:89-96 | the fallback colour of the `default` branch is returned exactly for the stray `'close'` |
| `Barrier.StatusText` | src/pages/Index.tsx:98-105 | the fallback label of the `default` branch is returned exactly for the stray `'close'` |
| `Barrier.StatusDisplayDistinct` | src/pages/Index.tsx:89-105 | colour and label are each injective over all four status values; the `default` branch's fallback colour and label are shown exactly for the stray `'close'` |
| `Barrier.InvKeepsDeclaredStatus` | src/pages/Index.tsx:17 | in every state reachable with the intended completion, the status is one of the three declared values and the badge never shows the fallback |
| `Barrier.Take` | src/pages/Index.tsx:82 | `slice(0, n)` gives the prefix of length min(length, n) |
| `Barrier.PushLog` | src/pages/Index.tsx:82 | the new log is the newest five of the entry followed by the old log; its length is min(old length + 1, 5) |
| `Barrier.TakeAfterPrefix` | src/pages/Index.tsx:82 | cutting the old log to four before prepending loses nothing that the five-entry window keeps |
| `Barrier.ManualEntry` | src/pages/Index.tsx:74-80 | the new entry carries the requested action, the operator as user, the clock reading as id and timestamp, and the manual-open reason exactly for open and the manual-close reason exactly for close |
| `Barrier.SeedLogs` | src/pages/Index.tsx:22-44 | the page starts with exactly three historical entries |
| `Barrier.Initial` | src/pages/Index.tsx:17-44 | the initial state is closed at angle 0, with nothing pending, the mount time as last operation, 47 operations and the three seed entries, and it satisfies the invariant |
| `Barrier.StartStep` | src/pages/Index.tsx:46-47 | starting sets the status to moving and records the pending action; counter, log, angle and last-operation time are unchanged |
| `Barrier.CompleteStep` | src/pages/Index.tsx:69-83 | completion sets the intended target status and angle and stamps the time; the counter goes up by exactly one; the log grows to min(old + 1, 5) with the operator's entry for the action at its head, followed by the old entries in order |
| `Barrier.StoredStatus` | src/pages/Index.tsx:70 | the status line 70 stores is `open` exactly after an open and the stray `'close'` exactly after a close |
| `Barrier.CompleteStepAsWritten` | src/pages/Index.tsx:69-83 | the completion as written stores the action string as the status and otherwise agrees with `CompleteStep` field for field |
| `Barrier.Step` | src/pages/Index.tsx:67-220 | on a click (the buttons, lines 204-220): a disabled button changes nothing; an enabled one starts moving with that action pending and leaves the angle, the last-operation time, the counter and the log as they were. On a finish (the last-frame branch, lines 67-83): with no animation running nothing changes; a completing finish stores the intended status or, as written, the action string, clears the pending action, stamps the finish time, sets the action's target angle, raises the counter by one and pushes the operator's entry with `PushLog` |
| `Barrier.RunCounts` | src/pages/Index.tsx:72 | in either mode, over any event sequence, the counter rises by exactly the number of added entries |
| `Barrier.AddedAreManual` | src/pages/Index.tsx:74-80 | in either mode, every added entry is the operator's, with the reason for its action |
| `Barrier.RunLogWindow` | src/pages/Index.tsx:82 | in either mode, over any event sequence, the log is the newest five of the added entries followed by the old log, so the dropped entries are always the oldest |
| `Barrier.PressWhileMovingIsIgnored` | src/pages/Index.tsx:204-220 | in either mode, while the barrier moves, a click on either button changes nothing |
| `Barrier.StepPreservesInv` | src/pages/Index.tsx:46-87 | with the intended completion every click or finish keeps the invariant: moving exactly when an action is pending; the resting status alternates with the parity of completed operations; the angle matches the resting status; the log length is min(3 + completed, 5) |
| `Barrier.RunPreservesInv` | src/pages/Index.tsx:46-87 | with the intended completion the invariant holds after any event sequence |
| `Barrier.AddedAlternate` | src/pages/Index.tsx:206-214 | with the intended completion the added actions alternate with the parity of the operation count |
| `Barrier.RunFacts` | src/pages/Index.tsx:69-83 | with the intended completion, over any event sequence: the invariant holds; the counter rises by the number of added entries; every added entry is the operator's with the reason for its action; added actions alternate; the log is the newest five of the added entries followed by the old log |
| `Barrier.Reachable` | src/pages/Index.tsx:17-83 | in either mode, from the initial state, the counter is 47 + n after n completed transitions, and the log is the newest five of those entries followed by the seeds, of length min(3 + n, 5) |
| `Barrier.ReachableIntended` | src/pages/Index.tsx:17-83 | from the initial state with the intended completion every state keeps the invariant, and the completed transitions alternate open, close, ..., starting with open |
| `Barrier.CloseAsWrittenReenablesClose` | src/pages/Index.tsx:70 | as written, after a completed close the badge shows the fallback colour and label (lines 94 and 103), both buttons are enabled (lines 206 and 214), and a second close starts moving |
| `Barrier.SecondCloseAsWritten` | src/pages/Index.tsx:46-83 | for open, finish, close, finish, close, finish from the initial state, as written: the counter is 50, the status `'close'`, and two close entries head the log |
| `Barrier.SecondCloseIntended` | src/pages/Index.tsx:46-83 | the same events with the intended completion: the counter is 49, the status `closed`, and the close entry is followed by the open entry |
| `BarrierPage.BarrierController.constructor` | src/pages/Index.tsx:17-44 | the object starts in the initial state |
| `BarrierPage.BarrierController.Start` | src/pages/Index.tsx:46-47 | updates the fields as `StartStep` says and keeps the invariant |
| `BarrierPage.BarrierController.Complete` | src/pages/Index.tsx:69-83 | updates the fields as `CompleteStep` says and keeps the invariant |
| `BarrierPage.BarrierController.Click` | src/pages/Index.tsx:204-220 | a click is accepted exactly when its button is enabled; a rejected click changes nothing |
| `BarrierPage.OpenFromInitial` | src/pages/Index.tsx:46-83 | opening from the initial state goes through moving; the counter is then 48 and the log holds the operator's open entry followed by the three seeds |
| `BarrierPage.OpenThenClose` | src/pages/Index.tsx:46-83 | after open then close the barrier is closed with counter 49; the close entry heads a full five-entry log, the open entry next to it |
| `BarrierPage.CloseWhileClosed` | src/pages/Index.tsx:212-214 | closing an already closed barrier leaves the whole state unchanged |
| `BarrierPage.CloseDuringOpening` | src/pages/Index.tsx:204-220 | a close clicked while opening is ignored; the barrier ends open and exactly one entry was added |

## Left out

- The easing curve and the per-frame rotation (lines 55-65 and 198) are left out. They are floating-point interpolation used only for display. `rotation` changes only at completion, to the target angle.
- The `requestAnimationFrame` loop and the 2000 ms duration (lines 52-68 and 86) are left out. Scheduling and wall-clock time are replaced by the explicit completion step and an instant passed in.
- Calling `handleBarrierAction` while an animation runs is not modelled. No caller can do that, because both buttons are disabled while moving. `Start` requires the guard instead.
- Timestamps are integer instants rather than `Date` objects. The source reads the clock three times per completion (lines 71, 75 and 77) and four times at mount (lines 19, 26, 33 and 40); the model uses one reading for each.
- Uniqueness of log ids is not modelled. It depends on the clock, which the model does not constrain.
- `formatTime` and `formatDate` (lines 107-120) are left out. They are locale formatting over `toLocaleTimeString` and `toLocaleDateString`.
- `batteryLevel` (lines 21 and 277-279) is left out. It is a fixed display value with no logic.
- The markup is left out (lines 122-346): the badge variant, the log row labels and the three "quick action" buttons, which have no handlers.
- Barrier.Target: states the intended status `closed` after a close; line 70 stores `'close'`, which `StoredStatus` models.
- Barrier.CompleteStep: sets the intended `closed` after a close; the as-written completion is `CompleteStepAsWritten` (see "## Findings").
- Barrier.InvKeepsDeclaredStatus: holds for the intended completion only; as written, the status is `'close'` after every completed close.
- Barrier.StepPreservesInv: is proved for the intended completion only; as written, the alternation conjunct of `Inv` fails after the first completed close.
- Barrier.RunPreservesInv: is proved for the intended completion only, for the same reason.
- Barrier.AddedAlternate: is proved for the intended completion only; as written, a second close is accepted (`SecondCloseAsWritten`).
- Barrier.RunFacts: is proved for the intended completion; its counter, log and entry facts hold in both modes (`RunCounts`, `RunLogWindow`, `AddedAreManual`), its alternation only as intended.
- Barrier.ReachableIntended: is proved for the intended completion only; as written, a completed close leaves close enabled, so open and close need not alternate.
- BarrierPage.BarrierController.Complete: applies the intended completion; the object does not model the stray `'close'` status.
- BarrierPage.OpenThenClose: ends in the intended `closed`; as written the status would be `'close'`.

## Findings

| source | as written | input that shows it | evidently intended | confidence | as-written member | corrected member |
|---|---|---|---|---|---|---|
| src/pages/Index.tsx:70 | `setBarrierStatus(action)` stores the action string, so a completed close leaves the status `'close'`, which is none of `'open'`, `'closed'`, `'moving'` | from the initial state: open, finish, close, finish; the badge then shows `'bg-muted'` and `'Неизвестно'` and the close button is enabled; close, finish once more brings the counter to 50 with two close entries at the head of the log | a completed close sets `'closed'`, so close stays disabled until the barrier is opened again and the transitions alternate | high, not executed | `Barrier.SecondCloseAsWritten` | `Barrier.ReachableIntended` |
