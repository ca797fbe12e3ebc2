/**
 The session controller of the stream Pomodoro timer: the state that the
 page's mode, pause and adjust buttons and its 100 ms interval act on, and
 the transitions they cause.

 Wall-clock time is an explicit `now` in integer milliseconds; the two audio
 cues are returned as events; a JavaScript exception thrown part-way through
 a handler is the `thrown` flag of the outcome (the statements after it do
 not run, the assignments before it stay).
 */
module Session {

  datatype Option<T> = None | Some(value: T)

  /** The three phases a mode button can select. */
  datatype Mode = Pomodoro | ShortBreak | LongBreak

  /** The two audio cues: break.mp3 and work.mp3. */
  datatype Cue = BreakCue | WorkCue

  /** The `data-action` of an adjust button. */
  datatype Action = Plus | Minus

  /** Configuration fixed at page load. Durations are in seconds;
      `maxSessions == 0` means no limit. */
  datatype Config = Config(
    pomodoro: int,
    shortBreak: int,
    longBreak: int,
    maxSessions: int,
    omitSessions: bool)

  predicate ValidConfig(cfg: Config) {
    cfg.pomodoro > 0 && cfg.shortBreak > 0 && cfg.longBreak > 0
  }

  /** The configured duration of a mode, in seconds (the `lengths` table). */
  function Duration(cfg: Config, m: Mode): int {
    match m
    case Pomodoro => cfg.pomodoro
    case ShortBreak => cfg.shortBreak
    case LongBreak => cfg.longBreak
  }

  /** The controller's variables. `length` is in seconds, `endTime` and
      `remaining` in milliseconds; `remaining` is the value computed by the
      last refresh, and `running` says whether a ticking interval is set. */
  datatype State = State(
    mode: Option<Mode>,
    sessions: nat,
    length: int,
    endTime: int,
    remaining: int,
    paused: bool,
    running: bool)

  /** The page before any click. The source leaves length, end time and
      remaining time undefined here; none of them is read before it is
      written, so zero stands in for them. */
  const Init := State(None, 0, 0, 0, 0, false, false)

  /** What a handler leaves behind: the new state, the cues it played in
      order, and whether it ended by throwing. */
  datatype Outcome = Outcome(state: State, cues: seq<Cue>, thrown: bool)

  /** An outcome that plays nothing and does not throw. */
  function Quiet(s: State): Outcome {
    Outcome(s, [], false)
  }

  /** The auto-advance guard: no limit, counting switched off, or fewer
      sessions than the limit. */
  predicate BelowLimit(cfg: Config, sessions: nat) {
    cfg.omitSessions || cfg.maxSessions == 0 || sessions < cfg.maxSessions
  }

  /** The auto-advance policy stated per finished phase: a finished pomodoro
      is always followed by a short break; a finished break (or a countdown
      begun before any mode was chosen) is followed by a pomodoro while below
      the limit; otherwise the timer stays stopped. A long break is never
      chosen. */
  function Advance(cfg: Config, mode: Option<Mode>, sessions: nat): (r: Option<Mode>)
    ensures r != Some(LongBreak)
    ensures r == Some(ShortBreak) <==> mode == Some(Pomodoro)
    ensures r.None? <==> mode != Some(Pomodoro) && !BelowLimit(cfg, sessions)
  {
    if mode == Some(Pomodoro) then Some(ShortBreak)
    else if BelowLimit(cfg, sessions) then Some(Pomodoro)
    else None
  }

  /** `t` is `s` with a fresh countdown of `s.length` seconds begun at `now`:
      the counter grows by one exactly when the mode is pomodoro, the timer
      ticks, and mode and length are kept. */
  ghost predicate Started(s: State, now: int, t: State) {
    && t.mode == s.mode
    && t.length == s.length
    && (s.mode == Some(Pomodoro) ==> t.sessions == s.sessions + 1)
    && (s.mode != Some(Pomodoro) ==> t.sessions == s.sessions)
    && t.endTime == now + s.length * 1000
    && t.remaining == s.length * 1000
    && !t.paused
    && t.running
  }

  /** `r` is what natural expiry of the countdown in `s` at `now` produces:
      the break cue exactly when a pomodoro ends, the work cue exactly when
      the limit guard holds, each at most once and the break cue first; then
      either the phase `Advance` picks is started, or the timer stops at zero
      with everything else kept. Stopping with no mode chosen throws. */
  ghost predicate Expiry(cfg: Config, s: State, now: int, r: Outcome) {
    && (BreakCue in r.cues <==> s.mode == Some(Pomodoro))
    && (WorkCue in r.cues <==> BelowLimit(cfg, s.sessions))
    && |r.cues| == (if s.mode == Some(Pomodoro) then 1 else 0) + (if BelowLimit(cfg, s.sessions) then 1 else 0)
    && (|r.cues| == 2 ==> r.cues[0] == BreakCue)
    && var next := Advance(cfg, s.mode, s.sessions);
       if next.None? then r.state == s.(remaining := 0, running := false) && (r.thrown <==> s.mode.None?)
       else Started(s.(mode := next, length := Duration(cfg, next.value)), now, r.state) && !r.thrown
  }

  /** Marking the current mode's button active looks the button up by the
      mode's name; with no mode chosen there is no such button and the
      lookup's result is dereferenced anyway, which throws. */
  function MarkActive(o: Outcome): (r: Outcome)
    ensures r.state == o.state && r.cues == o.cues
    ensures r.thrown <==> o.thrown || o.state.mode.None?
  {
    if o.thrown then o else o.(thrown := o.state.mode.None?)
  }

  /** `updateClock`: recompute the remaining time from the end time and, when
      it has run out, stop and auto-advance. */
  function Refresh(cfg: Config, s: State, now: nat): (r: Outcome)
    requires ValidConfig(cfg)
    ensures r.state.remaining >= 0
    ensures s.endTime > now ==> r == Quiet(s.(remaining := s.endTime - now))
    ensures s.endTime <= now ==> Expiry(cfg, s, now, r)
    decreases if s.endTime <= now then 1 else 0, 1
  {
    if s.endTime - now <= 0 then Expire(cfg, s, now)
    else Quiet(s.(remaining := s.endTime - now))
  }

  /** The expiry branch of `updateClock`: clamp to zero, clear the interval,
      play the cues and switch mode as the limit guard says. */
  function Expire(cfg: Config, s: State, now: nat): (r: Outcome)
    requires ValidConfig(cfg)
    ensures r.state.remaining >= 0
    ensures Expiry(cfg, s, now, r)
    decreases 1, 0
  {
    var t := s.(remaining := 0, running := false);
    var breakCue := if t.mode == Some(Pomodoro) then [BreakCue] else [];
    if BelowLimit(cfg, t.sessions) then
      var next := if t.mode != Some(Pomodoro) then Pomodoro else ShortBreak;
      var o := Launch(cfg, t.(mode := Some(next), length := Duration(cfg, next)), now);
      MarkActive(o.(cues := breakCue + [WorkCue] + o.cues))
    else if t.mode == Some(Pomodoro) then
      var o := Launch(cfg, t.(mode := Some(ShortBreak), length := Duration(cfg, ShortBreak)), now);
      MarkActive(o.(cues := breakCue + o.cues))
    else
      MarkActive(Outcome(t, breakCue, false))
  }

  /** `runTimer`: clear the pause flag, refresh, and set a new interval. */
  function RunTimer(cfg: Config, s: State, now: nat): (r: Outcome)
    requires ValidConfig(cfg)
    ensures r.state.remaining >= 0
    ensures s.endTime > now ==> r == Quiet(s.(paused := false, remaining := s.endTime - now, running := true))
    decreases if s.endTime <= now then 1 else 0, 2
  {
    var o := Refresh(cfg, s.(paused := false), now);
    if o.thrown then o else o.(state := o.state.(running := true))
  }

  /** `startTimer`: count a session when starting a pomodoro, set the end
      time `length` seconds ahead and run. */
  function Launch(cfg: Config, s: State, now: nat): (r: Outcome)
    requires ValidConfig(cfg)
    ensures r.state.remaining >= 0
    ensures s.length > 0 ==> Started(s, now, r.state) && r.cues == [] && !r.thrown
    decreases if s.length > 0 then 0 else 2, 3
  {
    var counted := if s.mode == Some(Pomodoro) then s.sessions + 1 else s.sessions;
    RunTimer(cfg, s.(sessions := counted, endTime := now + s.length * 1000), now)
  }

  /** A click on the mode-button bar. `None` is a click that did not land on
      a button: nothing happens. Otherwise the chosen mode is started at its
      configured duration, even when it is already the current mode. */
  function SelectMode(cfg: Config, s: State, choice: Option<Mode>, now: nat): (r: Outcome)
    requires ValidConfig(cfg)
    ensures choice.None? ==> r == Quiet(s)
    ensures choice.Some? ==>
      && Started(s.(mode := choice, length := Duration(cfg, choice.value)), now, r.state)
      && r.cues == []
      && !r.thrown
  {
    match choice
    case None => Quiet(s)
    case Some(m) => Launch(cfg, s.(mode := Some(m), length := Duration(cfg, m)), now)
  }

  /** The pause button: resume a paused countdown, pause a running one, and
      do nothing before the first start. Pausing keeps the remaining time of
      the last refresh instead of recomputing it. */
  function TogglePause(cfg: Config, s: State, now: nat): (r: Outcome)
    requires ValidConfig(cfg)
    ensures s.paused && s.remaining > 0 ==>
      r == Quiet(s.(endTime := now + s.remaining, paused := false, running := true))
    ensures !s.paused && s.running ==> r == Quiet(s.(paused := true, running := false))
    ensures !s.paused && !s.running ==> r == Quiet(s)
  {
    if s.paused then RunTimer(cfg, s.(endTime := now + s.remaining), now)
    else if s.running then Quiet(s.(running := false, paused := true))
    else Quiet(s)
  }

  /** The adjust buttons, ignored while paused. While running, plus and minus
      move both the length and the end time by a minute, and minus clamps the
      end time at the epoch (not at `now`); when not running, plus starts a
      one-minute countdown in the current mode and minus does nothing. */
  function Adjust(cfg: Config, s: State, action: Option<Action>, now: nat): (r: Outcome)
    requires ValidConfig(cfg)
    ensures s.paused || action.None? ==> r == Quiet(s)
    ensures !s.paused && action == Some(Plus) && s.running && s.endTime + 60000 > now ==>
      r == Quiet(s.(length := s.length + 60, endTime := s.endTime + 60000,
                    remaining := s.endTime + 60000 - now))
    ensures !s.paused && action == Some(Plus) && s.running && s.endTime + 60000 <= now ==>
      Expiry(cfg, s.(length := s.length + 60, endTime := s.endTime + 60000), now, r)
    ensures !s.paused && action == Some(Plus) && !s.running ==>
      Started(s.(length := 60), now, r.state) && r.cues == [] && !r.thrown
    ensures !s.paused && action == Some(Minus) && s.running ==>
      var e := if s.endTime - 60000 < 0 then 0 else s.endTime - 60000;
      && (e > now ==> r == Quiet(s.(length := s.length - 60, endTime := e, remaining := e - now)))
      && (e <= now ==> Expiry(cfg, s.(length := s.length - 60, endTime := e), now, r))
    ensures !s.paused && action == Some(Minus) && !s.running ==> r == Quiet(s)
  {
    if s.paused then Quiet(s)
    else match action
      case None => Quiet(s)
      case Some(Plus) =>
        if s.running then Refresh(cfg, s.(length := s.length + 60, endTime := s.endTime + 60000), now)
        else Launch(cfg, s.(length := 60), now)
      case Some(Minus) =>
        if s.running then
          var e := s.endTime - 60000;
          Refresh(cfg, s.(length := s.length - 60, endTime := if e < 0 then 0 else e), now)
        else Quiet(s)
  }

  /** One firing of the 100 ms interval. It only fires while an interval is
      set; it then refreshes, which on expiry stops and auto-advances. */
  function Tick(cfg: Config, s: State, now: nat): (r: Outcome)
    requires ValidConfig(cfg)
    ensures !s.running ==> r == Quiet(s)
    ensures s.running ==> r.state.remaining >= 0
    ensures s.running && s.endTime > now ==> r == Quiet(s.(remaining := s.endTime - now))
    ensures s.running && s.endTime <= now ==> Expiry(cfg, s, now, r)
  {
    if s.running then Refresh(cfg, s, now) else Quiet(s)
  }

  /** The inputs the page reacts to. */
  datatype Event =
    | ModeClick(choice: Option<Mode>)
    | PauseClick
    | AdjustClick(action: Option<Action>)
    | IntervalFired

  /** Route an event to its handler. A mode click only starts a countdown,
      and pausing a timer that is not paused only stops it: neither plays a
      cue or throws. The interval does nothing once it is cleared. */
  function Dispatch(cfg: Config, s: State, ev: Event, now: nat): (r: Outcome)
    requires ValidConfig(cfg)
    ensures ev.ModeClick? ==> r.cues == [] && !r.thrown
    ensures ev.PauseClick? && !s.paused ==> r.cues == [] && !r.thrown
    ensures ev.IntervalFired? && !s.running ==> r == Quiet(s)
  {
    match ev
    case ModeClick(choice) => SelectMode(cfg, s, choice, now)
    case PauseClick => TogglePause(cfg, s, now)
    case AdjustClick(action) => Adjust(cfg, s, action, now)
    case IntervalFired => Tick(cfg, s, now)
  }

  /** An event and the time at which it arrives. */
  datatype Timed = Timed(ev: Event, at: nat)

  /** The state after a sequence of events, each handled to completion. */
  function Replay(cfg: Config, s: State, events: seq<Timed>): State
    requires ValidConfig(cfg)
    decreases |events|
  {
    if events == [] then s
    else Replay(cfg, Dispatch(cfg, s, events[0].ev, events[0].at).state, events[1..])
  }
}
