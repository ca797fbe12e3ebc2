/**
 Properties of the session controller that relate several handler calls:
 the invariant every handler keeps, pause and resume as inverses, plus and
 minus as inverses, and when a handler can throw.
 */
module SessionFacts {
  import opened Session

  /** The states the page can reach. At most one of running and paused
      holds; a ticking or paused countdown has time left; an idle timer is
      never in pomodoro mode; no session is counted before a mode is chosen;
      the end time is never before the epoch. */
  ghost predicate Valid(cfg: Config, s: State) {
    && ValidConfig(cfg)
    && !(s.running && s.paused)
    && s.remaining >= 0
    && (s.running || s.paused ==> s.remaining > 0)
    && (!s.running && !s.paused ==> s.mode != Some(Pomodoro))
    && (s.mode.None? ==> s.sessions == 0)
    && s.endTime >= 0
  }

  lemma InitValid(cfg: Config)
    requires ValidConfig(cfg)
    ensures Valid(cfg, Init)
  {
  }

  /** A countdown that expires leaves a reachable state behind. */
  lemma ExpiryValid(cfg: Config, s: State, now: nat, r: Outcome)
    requires Valid(cfg, s) && !s.paused && Expiry(cfg, s, now, r)
    ensures Valid(cfg, r.state)
  {
  }

  /** Every handler keeps the invariant. */
  lemma DispatchValid(cfg: Config, s: State, ev: Event, now: nat)
    requires Valid(cfg, s)
    ensures Valid(cfg, Dispatch(cfg, s, ev, now).state)
  {
  }

  /** Any sequence of events from a reachable state ends in one. */
  lemma {:induction false} ReplayValid(cfg: Config, s: State, events: seq<Timed>)
    requires Valid(cfg, s)
    ensures Valid(cfg, Replay(cfg, s, events))
    decreases |events|
  {
    if events != [] {
      DispatchValid(cfg, s, events[0].ev, events[0].at);
      ReplayValid(cfg, Dispatch(cfg, s, events[0].ev, events[0].at).state, events[1..]);
    }
  }

  /** Pausing and then resuming never drifts: the remaining time is kept, the
      new end time is that much after the resume, and mode, counter and
      length are untouched. Resuming at the instant of the last refresh
      restores the state exactly. */
  lemma PauseResume(cfg: Config, s: State, t1: nat, t2: nat, last: nat)
    requires Valid(cfg, s) && s.running
    ensures var p := TogglePause(cfg, s, t1);
      var q := TogglePause(cfg, p.state, t2);
      && p.state.paused && !p.state.running && p.state.remaining == s.remaining
      && q.state == s.(endTime := t2 + s.remaining)
      && p.cues == [] && q.cues == [] && !q.thrown
    ensures s.remaining == s.endTime - last ==>
      TogglePause(cfg, TogglePause(cfg, s, t1).state, last).state == s
  {
  }

  /** Plus then minus while running returns length and end time to their
      values, provided neither refresh expires. */
  lemma PlusThenMinus(cfg: Config, s: State, t1: nat, t2: nat)
    requires Valid(cfg, s) && s.running && s.endTime + 60000 > t1 && s.endTime > t2
    ensures var p := Adjust(cfg, s, Some(Plus), t1).state;
      var m := Adjust(cfg, p, Some(Minus), t2);
      m == Quiet(s.(remaining := s.endTime - t2))
  {
  }

  /** Minus then plus while running is the identity on length and end time
      when the minute removed does not reach the refresh time. */
  lemma MinusThenPlus(cfg: Config, s: State, t1: nat, t2: nat)
    requires Valid(cfg, s) && s.running && s.endTime - 60000 > t1 && s.endTime > t2
    ensures var m := Adjust(cfg, s, Some(Minus), t1).state;
      var p := Adjust(cfg, m, Some(Plus), t2);
      p == Quiet(s.(remaining := s.endTime - t2))
  {
  }

  /** The clamp of minus at the epoch only fires together with an expiry, so
      the clamped end time is never the end of a running countdown. */
  lemma MinusClampExpires(cfg: Config, s: State, now: nat)
    requires Valid(cfg, s) && s.running && s.endTime < 60000
    ensures Expiry(cfg, s.(length := s.length - 60, endTime := 0), now,
                   Adjust(cfg, s, Some(Minus), now))
  {
  }

  /** In a reachable state a start from the adjust button never counts a
      session: an idle timer is never in pomodoro mode. */
  lemma RestartNeverCounts(cfg: Config, s: State, now: nat)
    requires Valid(cfg, s) && !s.running && !s.paused
    ensures Adjust(cfg, s, Some(Plus), now).state.sessions == s.sessions
  {
  }

  /** An expiry throws only under a negative limit. */
  lemma ThrowNeedsNegativeLimit(cfg: Config, s: State, now: nat, r: Outcome)
    requires Valid(cfg, s) && Expiry(cfg, s, now, r) && r.thrown
    ensures cfg.maxSessions < 0
  {
  }

  /** With a session limit that is not negative no handler throws; only a
      negative limit lets expiry stop before any mode was chosen. */
  lemma NoThrowWithoutNegativeLimit(cfg: Config, s: State, ev: Event, now: nat)
    requires Valid(cfg, s) && cfg.maxSessions >= 0
    ensures !Dispatch(cfg, s, ev, now).thrown
  {
  }

  /** The throw is reachable: with a limit of -1, a one-minute start from the
      adjust button that runs out stops with no mode chosen and throws. */
  lemma NegativeLimitThrows()
    ensures var cfg := Config(1500, 300, 600, -1, false);
      var s := Adjust(cfg, Init, Some(Plus), 0).state;
      var r := Tick(cfg, s, 60000);
      r.thrown && !r.state.running && r.state.mode.None? && r.cues == []
  {
  }
}
