# Stream Pomodoro timer: session controller model

A Dafny model of the session controller in `script.js` of the stream Pomodoro
timer. This is the state machine behind the page's buttons and its 100 ms
interval. It tracks:

- the current mode (pomodoro, short break, long break, or none before the first click);
- the session counter;
- the run length in seconds;
- the end time;
- the remaining time computed by the last refresh;
- the `paused` flag;
- whether an interval is set ("running").

The handlers are pure functions from a state, a configuration and the current
time to an `Outcome`. An `Outcome` holds the new state, the audio cues played
in order, and whether the handler ended by throwing a JavaScript exception.

- `session.dfy` (module `Session`): the data model and the handlers.
  - Mode selection: `SelectMode`.
  - Pause button: `TogglePause`.
  - Adjust buttons: `Adjust`.
  - Interval firing: `Tick`.
  - The source's own `updateClock`, `runTimer` and `startTimer`: `Refresh`/`Expire`, `RunTimer` and `Launch`.
  - The policy that auto-advance follows: `Advance`.
  - The whole-handler result on expiry: `Expiry`.
- `display.dfy` (module `Display`): what the page shows once a handler finishes. This is the `MM:SS` clock, the phase text, the session subtext, the title and the progress fraction.
- `decimal.dfy` (module `Decimal`): decimal text of counts, and reading it back.
- `facts.dfy` (module `SessionFacts`): properties that span several handler calls.
  - The invariant of reachable states.
  - Pause/resume and plus/minus as inverses.
  - When a handler can throw.
- `scenarios.dfy` (module `Scenarios`): runs of the auto-advance policy.

Time is an explicit `now`, in integer milliseconds since the epoch. The
configuration is a parameter: the three durations in seconds, `maxSessions` and
`omitSessions`. The durations must be positive.

The source calls `updateClock`, `startTimer` and `runTimer` mutually
recursively: an expiry starts the next phase, and that start refreshes again.
The model keeps this recursion. Its termination measure uses the fact that a
start with a positive length never expires at once.

Points where the code differs from a plain reading, all modelled as the code does them:

- Minus clamps the end time at `0`, the epoch, not at `now` (script.js:71-73). `length` can go negative (script.js:69). `SessionFacts.MinusClampExpires` shows the clamp only fires together with an expiry, so it never shapes a running countdown.
- Pausing does not recompute the remaining time. It keeps the value from the last refresh (script.js:39-42, 81). Resuming sets the end time to `now` plus that value.
- The work cue plays on every below-limit auto-switch, including a switch from pomodoro to short break, where both cues play (script.js:98-100). The comment at script.js:88 says the work cue is only for switching to a new pomodoro. The model follows the code.
- Marking the active button after an expiry looks up `[data-mode="undefined"]` when no mode was ever chosen. It then dereferences the missing element, which throws (script.js:110). The rendering writes after it do not run.
  - This can only happen under a negative `maxSessions`: `Number('-1') || 0` is `-1`.
  - `SessionFacts.NoThrowWithoutNegativeLimit` proves no handler throws otherwise.
  - `SessionFacts.NegativeLimitThrows` gives a run that does throw.

## Model

| member | source | states |
|---|---|---|
| Session.Advance | script.js:93-107 | The policy never picks a long break. It picks a short break exactly after a pomodoro. It stops exactly when the phase was not a pomodoro and the limit guard fails. Otherwise it picks a pomodoro. |
| Session.Dispatch | script.js:22-85 | A mode click never plays a cue and never throws. Pausing a timer that is not paused never plays a cue and never throws. The interval firing after it was cleared changes nothing. |
| Session.SelectMode | script.js:22-33 | A click off the buttons changes nothing. A mode click sets the mode and its configured length and restarts, even for the current mode. The end time is `now + length*1000`, the pause flag is cleared and the timer runs. The counter grows by one exactly when the mode is pomodoro. |
| Session.TogglePause | script.js:35-47 | Running: the result is paused and not running, with the remaining time and everything else kept. Paused: the result is running with end time `now + remaining` and the same remaining time. Neither: no change. |
| Session.Adjust | script.js:49-78 | Ignored while paused or off the buttons. Plus while running adds 60 s to the length and 60000 ms to the end time. Minus while running subtracts both and clamps the end time at 0. Either one leads to the expiry result when the new end time has passed. Minus while stopped changes nothing. Plus while stopped starts a 60 s countdown in the current mode under the counting rule. |
| Session.Tick | script.js:80-85 | With no interval set, nothing happens. Before the end time, the remaining time becomes `endTime - now` and nothing else changes. At or after it, the result is the expiry result. The remaining time is never negative. |
| Session.Refresh | script.js:80-111 | The remaining time is never negative. It is `endTime - now` while positive. Otherwise the refresh gives the expiry result. |
| Session.Expire | script.js:82-107 | Gives the break cue exactly when a pomodoro ends and the work cue exactly when the limit guard holds, each at most once, break first. It starts the phase `Advance` picks: pomodoro goes to short break; a break or no mode goes to pomodoro while below the limit; otherwise the timer stops at zero with everything else kept. It throws only when it stops with no mode. |
| Session.MarkActive | script.js:109-110 | Marking the active button throws exactly when no mode is set, unless an earlier throw already ended the handler. State and cues are untouched. |
| Session.RunTimer | script.js:132-138 | With the end time still ahead: no cue, pause flag cleared, timer running, remaining time `endTime - now`. |
| Session.Launch | script.js:140-146 | For a positive length, mode and length are kept. The end time is `now + length*1000` and the timer runs unpaused. The counter grows by one exactly when the mode is pomodoro. No cue plays. |
| Decimal.FromNat | script.js:114-117 | The text of a count is canonical decimal digits that read back as the count. It is one character exactly below ten, at most two below a hundred. |
| Decimal.FromValue | script.js:114-117 | The other direction of the round trip: a canonical digit string is the text of its own value. |
| Display.RoundSeconds | script.js:113 | The rounded seconds `r` are the whole number with `r*1000 - 500 <= ms < r*1000 + 500`, halves rounding up. |
| Display.Pad2 | script.js:114-117 | Padding gives digits that read back as the number. There are at least two of them, and exactly two exactly when it is below a hundred. From ten on they are the plain decimal text. Below ten they are a zero and the single digit. |
| Display.Clock | script.js:113-118 | The clock is the minutes, a colon, then exactly two seconds digits below sixty. Minutes times sixty plus seconds is the rounded remaining time. The minutes are padded to two digits with a leading zero below ten and are written plainly from ten on. The text is five characters exactly below a hundred minutes. |
| Display.PhaseText | script.js:122 | The phase text is FOCUS TIME exactly in pomodoro mode and BREAK TIME otherwise, including when no mode is set. |
| Display.Label | script.js:122-125 | The text element reads PAUSED exactly while paused, as written at script.js:45. When not paused it reads FOCUS TIME exactly in pomodoro mode and BREAK TIME exactly otherwise. |
| Display.Subtext | script.js:123-126 | The subtext is empty exactly when session display is off. Under a positive limit it is `Pomo ` then the counter's digits, `/`, and the limit's digits. Otherwise it is `Pomo #` then the counter's digits. |
| Display.Progress | script.js:128 | A zero length always shows a full bar, whatever the remaining time. For a nonzero length the fraction times the length is the elapsed part, the length minus the remaining seconds. A countdown at zero shows a full bar. |
| Display.ProgressFullAtZero | script.js:128 | A countdown at zero shows a full bar, whatever its length, including a zero length. |
| Display.ProgressBounds | script.js:128 | For a positive length and a remaining time within it, the fraction lies in [0, 1]. It is 0 exactly at the start and 1 exactly at zero. |
| Display.ProgressDecreasing | script.js:128 | For a positive length, the fraction strictly grows as the remaining time shrinks. |
| Display.Snapshot | script.js:113-129 | The clock is the clock text of the remaining time, and the subtext is the session subtext. The bar is the progress fraction of the length and remaining time. The text element is the label: PAUSED exactly while paused, else the phase text. The title repeats the clock and phase text joined by ` - `, except while paused, when it is PAUSED. |
| Display.PauseOverridesOnlyText | script.js:43-45 | Pausing a running timer changes only the text and the title of what is shown. Clock, subtext and progress stay as last drawn. |
| SessionFacts.InitValid | script.js:12-20 | The page before any click satisfies the invariant. |
| SessionFacts.ExpiryValid | script.js:82-107 | An expiry from an unpaused reachable state leaves a reachable state. |
| SessionFacts.DispatchValid | script.js:22-78 | Every handler keeps the invariant. At most one of running and paused holds. A running or paused countdown has time left. An idle timer is never in pomodoro mode. No session is counted before a mode is chosen. The end time is not before the epoch. |
| SessionFacts.ReplayValid | script.js:12-20 | Any sequence of events from a reachable state ends in a reachable state. |
| SessionFacts.PauseResume | script.js:35-47 | Pause then resume loses no time: the remaining time is kept, the end time becomes the resume time plus it, and nothing else changes. Resuming at the instant of the last refresh restores the state exactly. |
| SessionFacts.PlusThenMinus | script.js:56-76 | Plus then minus while running returns length and end time to their values when neither refresh expires. |
| SessionFacts.MinusThenPlus | script.js:56-76 | Minus then plus while running is the identity on length and end time when the shortened countdown has not run out. |
| SessionFacts.MinusClampExpires | script.js:67-75 | When minus clamps the end time at the epoch, the same refresh expires the countdown. |
| SessionFacts.RestartNeverCounts | script.js:62-65 | In a reachable state, plus on a stopped timer never counts a session. |
| SessionFacts.ThrowNeedsNegativeLimit | script.js:103-110 | An expiry from a reachable state throws only under a negative session limit. |
| SessionFacts.NoThrowWithoutNegativeLimit | script.js:109-110 | With a limit of zero or more, no handler throws from a reachable state. |
| SessionFacts.NegativeLimitThrows | script.js:98-110 | Under a limit of -1, a countdown started by plus before any mode click throws when it expires. It stops with no cue. |
| Scenarios.Ring | script.js:80-111 | The interval firing at a running countdown's end time gives the expiry result. |
| Scenarios.ExpiryStarts | script.js:98-106 | An expiry the policy advances starts the chosen phase at its configured length. It counts a session exactly for a pomodoro. |
| Scenarios.TwoSessionLimit | script.js:93-107 | With a limit of two, the run goes pomodoro, short break, pomodoro, short break, then stops. The counter goes 1, 1, 2, 2. The cues are [break, work], [work], [break], []. Later ticks change nothing. |
| Scenarios.EndlessAlternation | script.js:98-102 | With no limit or counting off, expiries alternate pomodoro and short break for ever. Every second expiry adds one session. |
| Scenarios.OneMinuteExample | script.js:87-102 | A one-minute pomodoro with no limit sets 60 s and counts one session. Sixty seconds later the short break starts at its configured length with the break then the work cue. |

## Left out

- Reading the configuration from the query string (script.js:1-7, 13-14). The durations and limits are parameters, and the durations must be positive. A non-positive duration would make a start expire at once and recurse through `startTimer` and `updateClock`.
- Fractional values from the query string: fractional minutes giving non-integer seconds, and a fractional `maxSessions`. All are integers here.
- DOM class toggling and the text and style writes (script.js:28-29, 43-45, 109-110, 120, 124-126, 129, 135). Only the values written are modelled, in `Display`. The style string `progress*100 + 'vw'` is left out.
- The audio objects and `.play()` (script.js:9-10, 90, 99). They are foreign side effects, modelled as `Cue` events.
- `setInterval`, `clearInterval` and `Date.now` (script.js:16, 84, 133, 137). They are replaced by the `running` flag and the explicit `now`. There is no concurrency to model.
- A handler's own delay: each handler reads one `now`, while the source calls `Date.now()` separately in `startTimer` and `updateClock`.
- Exponent notation for counts of 10^21 or more (script.js:123). `toString` writes those as `1e+21`, and `Decimal.FromNat` writes plain digits for every count.
- IEEE floating point. Remaining time is in integer milliseconds. `Math.round` is `(ms + 500) / 1000` on non-negative values. The progress fraction is an exact `real`.
- Display.ProgressBounds: its precondition, a remaining time within the length, is not shown to hold in reachable states. The model lets each event carry any `now`, including one earlier than the last. A plus after time has gone backwards then leaves more time than the length. With a clock that never goes backwards it would hold, but the state does not record the last `now`.
- Session.TogglePause: states nothing about resuming a paused state with no time left. No reachable state is like that (`SessionFacts.DispatchValid`).
- Session.RunTimer: states its result only when the end time is still ahead. Otherwise the refresh inside it expires at once, a case no reachable state reaches. That case would leave an extra interval set in the source; the model keeps one `running` flag.
- Session.Launch: states its result only for a positive length. Every start in the source sets a positive length: a configured duration or 60.
