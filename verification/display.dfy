/**
 What the page shows once a handler has finished: the `MM:SS` clock, the
 phase text, the session subtext, the document title and the width of the
 progress bar. Every value written is a function of the controller state,
 and the last write wins, so the snapshot is computed from the final state.
 A handler that ends by throwing skips these writes, so after a thrown
 outcome the page keeps its previous drawing instead.
 */
module Display {
  import opened Session
  import opened Decimal

  datatype View = View(clock: string, text: string, subtext: string, title: string, progress: real)

  /** `Math.round` of a non-negative time in milliseconds, to whole seconds,
      halves rounding up. */
  function RoundSeconds(ms: nat): (r: nat)
    ensures r * 1000 - 500 <= ms < r * 1000 + 500
  {
    (ms + 500) / 1000
  }

  /** `toString().padStart(2, '0')` of a count: its digits, at least two of
      them, exactly two below a hundred. The only zero added is the one that
      pads a single digit; from ten on the text is the plain decimal text. */
  function Pad2(n: nat): (r: string)
    ensures AllDigits(r) && Value(r) == n
    ensures |r| >= 2 && (|r| == 2 <==> n < 100)
    ensures n >= 10 ==> Canonical(r)
    ensures n < 10 ==> r[0] == '0' && Canonical(r[1..])
  {
    var t := FromNat(n);
    if |t| < 2 then
      var r := "0" + t;
      assert r[..1] == "0" && r[1..] == t;
      r
    else t
  }

  /** The clock text `MM:SS`: the part before the last three characters is
      the minutes, padded to two digits and otherwise written plainly, then a
      colon, then exactly two digits of seconds below sixty; together they
      are the rounded remaining time. The text is five characters long
      exactly below a hundred minutes. */
  function Clock(ms: nat): (c: string)
    ensures |c| >= 5 && c[|c| - 3] == ':'
    ensures AllDigits(c[..|c| - 3]) && AllDigits(c[|c| - 2..])
    ensures Value(c[..|c| - 3]) * 60 + Value(c[|c| - 2..]) == RoundSeconds(ms)
    ensures Value(c[|c| - 2..]) < 60
    ensures Canonical(c[..|c| - 3]) || (c[0] == '0' && |c| == 5)
    ensures |c| == 5 <==> RoundSeconds(ms) < 6000
  {
    var secs := RoundSeconds(ms);
    var m := Pad2(secs / 60);
    var s := Pad2(secs % 60);
    var c := m + ":" + s;
    assert c[..|c| - 3] == m;
    assert c[|c| - 2..] == s;
    c
  }

  /** The phase text of a mode. */
  function PhaseText(mode: Option<Mode>): (r: string)
    ensures r == "FOCUS TIME" || r == "BREAK TIME"
    ensures r == "FOCUS TIME" <==> mode == Some(Pomodoro)
  {
    if mode == Some(Pomodoro) then "FOCUS TIME" else "BREAK TIME"
  }

  /** The text element: the pause handler overwrites the phase with PAUSED. */
  function Label(s: State): (r: string)
    ensures r == "PAUSED" <==> s.paused
    ensures r == "FOCUS TIME" <==> !s.paused && s.mode == Some(Pomodoro)
    ensures r == "BREAK TIME" <==> !s.paused && s.mode != Some(Pomodoro)
  {
    if s.paused then "PAUSED" else PhaseText(s.mode)
  }

  /** The session subtext: `Pomo n/max` under a positive limit, `Pomo #n`
      otherwise, and nothing when session display is switched off. */
  function Subtext(cfg: Config, sessions: nat): (r: string)
    ensures r == "" <==> cfg.omitSessions
    ensures !cfg.omitSessions && cfg.maxSessions > 0 ==>
      exists a, b :: r == "Pomo " + a + "/" + b && Canonical(a) && Canonical(b)
                     && Value(a) == sessions && Value(b) == cfg.maxSessions
    ensures !cfg.omitSessions && cfg.maxSessions <= 0 ==>
      |r| > 6 && r[..6] == "Pomo #" && Canonical(r[6..]) && Value(r[6..]) == sessions
  {
    if cfg.omitSessions then ""
    else if cfg.maxSessions > 0 then
      var a := FromNat(sessions);
      var b := FromNat(cfg.maxSessions);
      var r := "Pomo " + a + "/" + b;
      assert r == "Pomo " + a + "/" + b && Canonical(a) && Canonical(b);
      r
    else
      var a := FromNat(sessions);
      var r := "Pomo #" + a;
      assert r[..6] == "Pomo #" && r[6..] == a;
      r
  }

  /** Dividing by a nonzero real and multiplying back gives the dividend. */
  lemma DivTimes(x: real, y: real)
    requires y != 0.0
    ensures (x / y) * y == x
    ensures x == y ==> x / y == 1.0
  {
  }

  /** The progress fraction: the elapsed part of the length, and one for a
      zero length. */
  function Progress(length: int, remaining: int): (p: real)
    ensures length != 0 ==> p * length as real == length as real - remaining as real / 1000.0
    ensures remaining == 0 ==> p == 1.0
    ensures length == 0 ==> p == 1.0
  {
    if length == 0 then 1.0
    else
      var l := length as real;
      var e := l - remaining as real / 1000.0;
      DivTimes(e, l);
      e / l
  }

  /** A countdown at zero shows a full bar, whatever its length. */
  lemma ProgressFullAtZero(length: int)
    ensures Progress(length, 0) == 1.0
  {
  }

  /** Within a positive length the bar lies between empty and full, is empty
      exactly at the start and full exactly at zero. */
  lemma ProgressBounds(length: int, remaining: int)
    requires length > 0 && 0 <= remaining <= length * 1000
    ensures 0.0 <= Progress(length, remaining) <= 1.0
    ensures Progress(length, remaining) == 0.0 <==> remaining == length * 1000
    ensures Progress(length, remaining) == 1.0 <==> remaining == 0
  {
  }

  /** Within a positive length the bar grows strictly as the remaining time
      shrinks. */
  lemma ProgressDecreasing(length: int, r1: int, r2: int)
    requires length > 0 && r1 < r2
    ensures Progress(length, r1) > Progress(length, r2)
  {
  }

  /** The whole display after a handler finished in state `s`. The title
      repeats the clock and the phase, except while paused. */
  function Snapshot(cfg: Config, s: State): (v: View)
    requires s.remaining >= 0
    ensures v.title == (if s.paused then "PAUSED" else v.clock + " - " + v.text)
    ensures v.text == "PAUSED" <==> s.paused
    ensures v.text == Label(s) && (!s.paused ==> v.text == PhaseText(s.mode))
    ensures v.clock == Clock(s.remaining)
    ensures v.subtext == Subtext(cfg, s.sessions)
    ensures v.progress == Progress(s.length, s.remaining)
  {
    var clock := Clock(s.remaining);
    View(clock, Label(s), Subtext(cfg, s.sessions),
         if s.paused then "PAUSED" else clock + " - " + PhaseText(s.mode),
         Progress(s.length, s.remaining))
  }

  /** Pausing writes only the text and the title: the clock, the subtext and
      the bar stay as the last refresh drew them. */
  lemma PauseOverridesOnlyText(cfg: Config, s: State, now: nat)
    requires ValidConfig(cfg) && s.running && !s.paused && s.remaining >= 0
    ensures var p := TogglePause(cfg, s, now).state;
      Snapshot(cfg, p) == Snapshot(cfg, s).(text := "PAUSED", title := "PAUSED")
  {
  }
}
