/**
 Runs of the auto-advance policy: each countdown is left to expire and the
 interval fires exactly at its end time.
 */
module Scenarios {
  import opened Session
  import opened SessionFacts

  /** The interval firing at the instant the current countdown ends. */
  function Ring(cfg: Config, s: State): (r: Outcome)
    requires ValidConfig(cfg) && s.endTime >= 0
    ensures s.running ==> Expiry(cfg, s, s.endTime, r)
  {
    Tick(cfg, s, s.endTime)
  }

  /** The state after `n` countdowns in a row have run out. */
  ghost function Rings(cfg: Config, s: State, n: nat): State
    requires Valid(cfg, s)
    decreases n
  {
    if n == 0 then s
    else
      var r := Ring(cfg, s);
      DispatchValid(cfg, s, IntervalFired, s.endTime);
      Rings(cfg, r.state, n - 1)
  }

  /** Under a limit of two: pomodoro, short break, pomodoro, short break,
      then the timer stops in the short break and further ticks change
      nothing. The first expiry plays both cues, the second only the work
      cue, the third only the break cue, the last none. */
  lemma TwoSessionLimit(cfg: Config, s: State, t0: nat)
    requires Valid(cfg, s) && cfg.maxSessions == 2 && !cfg.omitSessions && s.sessions == 0
    ensures
      var o0 := SelectMode(cfg, s, Some(Pomodoro), t0);
      var s0 := o0.state;
      s0.endTime >= 0 &&
      var o1 := Ring(cfg, s0);
      var s1 := o1.state;
      s1.endTime >= 0 &&
      var o2 := Ring(cfg, s1);
      var s2 := o2.state;
      s2.endTime >= 0 &&
      var o3 := Ring(cfg, s2);
      var s3 := o3.state;
      s3.endTime >= 0 &&
      var o4 := Ring(cfg, s3);
      var s4 := o4.state;
      && s0.mode == Some(Pomodoro) && s0.running && s0.sessions == 1
      && s1.mode == Some(ShortBreak) && s1.running && s1.sessions == 1 && o1.cues == [BreakCue, WorkCue]
      && s2.mode == Some(Pomodoro) && s2.running && s2.sessions == 2 && o2.cues == [WorkCue]
      && s3.mode == Some(ShortBreak) && s3.running && s3.sessions == 2 && o3.cues == [BreakCue]
      && s4.mode == Some(ShortBreak) && !s4.running && s4.remaining == 0 && o4.cues == []
      && (forall now: nat :: Tick(cfg, s4, now) == Quiet(s4))
  {
  }

  /** An expiry that the policy lets advance starts phase `m` at its
      configured length, counting a session exactly for a pomodoro. */
  lemma ExpiryStarts(cfg: Config, s: State, now: nat, r: Outcome, m: Mode)
    requires ValidConfig(cfg) && Expiry(cfg, s, now, r) && Advance(cfg, s.mode, s.sessions) == Some(m)
    ensures r.state.mode == Some(m) && r.state.running && !r.state.paused && !r.thrown
    ensures r.state.length == Duration(cfg, m)
    ensures r.state.endTime == now + Duration(cfg, m) * 1000
    ensures r.state.sessions == if m == Pomodoro then s.sessions + 1 else s.sessions
  {
  }

  /** Without a limit (or with counting off) the policy alternates pomodoro
      and short break for ever, counting one session per pomodoro. */
  lemma {:induction false} EndlessAlternation(cfg: Config, s: State, n: nat)
    requires Valid(cfg, s) && s.running && s.mode == Some(Pomodoro)
    requires cfg.maxSessions == 0 || cfg.omitSessions
    ensures var t := Rings(cfg, s, 2 * n);
      t.mode == Some(Pomodoro) && t.running && t.sessions == s.sessions + n
    ensures var t := Rings(cfg, s, 2 * n + 1);
      t.mode == Some(ShortBreak) && t.running && t.sessions == s.sessions + n
    decreases n
  {
    var s1 := Ring(cfg, s).state;
    ExpiryStarts(cfg, s, s.endTime, Ring(cfg, s), ShortBreak);
    DispatchValid(cfg, s, IntervalFired, s.endTime);
    assert Rings(cfg, s, 2 * n + 1) == Rings(cfg, s1, 2 * n);
    var s2 := Ring(cfg, s1).state;
    ExpiryStarts(cfg, s1, s1.endTime, Ring(cfg, s1), Pomodoro);
    DispatchValid(cfg, s1, IntervalFired, s1.endTime);
    if n > 0 {
      assert Rings(cfg, s, 2 * n) == Rings(cfg, s2, 2 * (n - 1));
      assert Rings(cfg, s1, 2 * n) == Rings(cfg, s2, 2 * (n - 1) + 1);
      EndlessAlternation(cfg, s2, n - 1);
    }
  }

  /** A one-minute pomodoro with no limit: the start counts one session and
      sets sixty seconds; sixty seconds later the short break starts at its
      configured length, playing the break cue and then the work cue. */
  lemma OneMinuteExample(shortBreak: int, t0: nat)
    requires shortBreak > 0
    ensures var cfg := Config(60, shortBreak, 600, 0, false);
      var s := SelectMode(cfg, Init, Some(Pomodoro), t0).state;
      var r := Tick(cfg, s, t0 + 60000);
      && s.length == 60 && s.sessions == 1
      && r.state.mode == Some(ShortBreak) && r.state.length == shortBreak
      && r.state.sessions == 1 && r.state.running && r.cues == [BreakCue, WorkCue]
  {
  }
}
