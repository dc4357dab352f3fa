/**
 * The timer card (src/components/PomodoroTimer.tsx): its state fields,
 * updated in place by the buttons, the duration callbacks from the settings
 * panel and the one-second effect, and the `mm:ss` display of the countdown.
 */
module PomodoroTimer {
  import opened Wrappers
  import opened Decimal
  import opened TimerSession

  /** `formatTime`: whole minutes, `:`, the remaining seconds, each zero-padded to two digits. */
  function FormatTime(seconds: nat): string {
    PadStart(ToDecimal(seconds / 60), 2, '0') + ":" + PadStart(ToDecimal(seconds % 60), 2, '0')
  }

  /**
   * Reading a `minutes:ss` display back into seconds: digits, a colon, two
   * digits below 60; `None` for text of any other shape.
   */
  function ParseClock(r: string): Option<nat> {
    if |r| >= 4 && r[|r| - 3] == ':' then ParseClockFields(r[..|r| - 3], r[|r| - 2..]) else None
  }

  /** The two fields around the colon: a minute count and two digits below 60. */
  function ParseClockFields(mm: string, ss: string): Option<nat> {
    if AllDigits(mm) && AllDigits(ss) && |ss| == 2 && ParseDecimal(ss) < 60
    then Some(ParseDecimal(mm) * 60 + ParseDecimal(ss))
    else None
  }

  /** Whole minutes and leftover seconds, as `Math.floor(s / 60)` and `s % 60` give them. */
  lemma MinutesAndSeconds(seconds: nat)
    ensures seconds / 60 * 60 + seconds % 60 == seconds && seconds % 60 < 60
    ensures seconds < 6000 <==> seconds / 60 < 100
  {
  }

  /** One field of `formatTime`: a number in decimal, zero-padded to two digits. */
  lemma PaddedField(n: nat)
    ensures var f := PadStart(ToDecimal(n), 2, '0');
      AllDigits(f) && ParseDecimal(f) == n && |f| >= 2 && (n < 100 <==> |f| == 2)
  {
    ParseZeroPadded(ToDecimal(n), 2);
  }

  /** The two padded fields of `formatTime` read back as minutes and seconds. */
  lemma ClockValues(seconds: nat, mm: string, ss: string)
    requires mm == PadStart(ToDecimal(seconds / 60), 2, '0')
    requires ss == PadStart(ToDecimal(seconds % 60), 2, '0')
    ensures AllDigits(mm) && AllDigits(ss) && |ss| == 2 && |mm| >= 2
    ensures ParseDecimal(ss) < 60 && ParseDecimal(mm) * 60 + ParseDecimal(ss) == seconds
    ensures seconds < 6000 <==> |mm| == 2
  {
    var m, sec := seconds / 60, seconds % 60;
    MinutesAndSeconds(seconds);
    PaddedField(m);
    PaddedField(sec);
    assert ParseDecimal(mm) == m && ParseDecimal(ss) == sec;
  }

  /** Text joined around a colon splits back into the same two fields. */
  lemma ParseClockSplits(mm: string, ss: string)
    requires |ss| == 2 && |mm| >= 1
    ensures ParseClock(mm + ":" + ss) == ParseClockFields(mm, ss)
  {
    var r := mm + ":" + ss;
    assert r[..|r| - 3] == mm;
    assert r[|r| - 2..] == ss;
  }

  /** A digit field, a colon and two digits below 60 read back as minutes and seconds. */
  lemma FieldsReadBack(mm: string, ss: string, total: nat)
    requires AllDigits(mm) && AllDigits(ss) && |ss| == 2 && |mm| >= 1
    requires ParseDecimal(ss) < 60 && ParseDecimal(mm) * 60 + ParseDecimal(ss) == total
    ensures ParseClockFields(mm, ss) == Some(total)
  {
  }

  /** The text `formatTime` builds from its two fields reads back as the seconds. */
  lemma ClockReadsBack(seconds: nat, mm: string, ss: string)
    requires mm == PadStart(ToDecimal(seconds / 60), 2, '0')
    requires ss == PadStart(ToDecimal(seconds % 60), 2, '0')
    ensures ParseClock(mm + ":" + ss) == Some(seconds)
  {
    ClockValues(seconds, mm, ss);
    FieldsReadBack(mm, ss, seconds);
    ParseClockSplits(mm, ss);
  }

  /** `formatTime` loses nothing: its text reads back as the seconds it was given. */
  lemma FormatTimeReadsBack(seconds: nat)
    ensures ParseClock(FormatTime(seconds)) == Some(seconds)
  {
    var mm := PadStart(ToDecimal(seconds / 60), 2, '0');
    var ss := PadStart(ToDecimal(seconds % 60), 2, '0');
    assert FormatTime(seconds) == mm + ":" + ss;
    ClockReadsBack(seconds, mm, ss);
  }

  /** Below 100 minutes the display is exactly `mm:ss`, five characters; from 100 minutes on it is longer. */
  lemma FormatTimeWidth(seconds: nat)
    ensures seconds < 6000 <==> |FormatTime(seconds)| == 5
  {
    var mm := PadStart(ToDecimal(seconds / 60), 2, '0');
    var ss := PadStart(ToDecimal(seconds % 60), 2, '0');
    assert FormatTime(seconds) == mm + ":" + ss;
    MinutesAndSeconds(seconds);
    PaddedField(seconds / 60);
    PaddedField(seconds % 60);
    assert |FormatTime(seconds)| == |mm| + 3;
  }

  /** Two different remaining times never show the same text. */
  lemma FormatTimeInjective(a: nat, b: nat)
    requires FormatTime(a) == FormatTime(b)
    ensures a == b
  {
    FormatTimeReadsBack(a);
    FormatTimeReadsBack(b);
  }

  class Timer {
    /** The focus length in seconds (the source calls this state `focusMinutes`). */
    var focusSeconds: nat
    /** The break length in seconds (the source calls this state `breakMinutes`). */
    var breakSeconds: nat
    var timeLeft: nat
    var isRunning: bool
    var isBreak: bool
    var progress: real
    var sessions: nat
    /** How many times the expiry chime was started; playing it is fire-and-forget. */
    ghost var chimes: nat

    ghost function State(): TimerState
      reads this
    {
      TimerState(focusSeconds, breakSeconds, timeLeft, isRunning, isBreak, progress, sessions)
    }

    constructor ()
      ensures State() == Initial() && chimes == 0
    {
      focusSeconds, breakSeconds := DefaultFocus, DefaultBreak;
      timeLeft := DefaultFocus;
      isRunning, isBreak := false, false;
      progress := 100.0;
      sessions := 0;
      chimes := 0;
    }

    /** Start/Pause: flips `isRunning`, nothing else. Specified by `TimerSession.ToggleTimer`. */
    method ToggleTimer()
      modifies this
      ensures isRunning == !old(isRunning)
      ensures State() == old(State()).(isRunning := isRunning) && chimes == old(chimes)
      ensures State() == TimerSession.ToggleTimer(old(State()))
    {
      isRunning := !isRunning;
    }

    /**
     * Reset: paused, full ring, the current mode's whole length; mode and sessions kept.
     * Specified by `TimerSession.ResetTimer`.
     */
    method ResetTimer()
      modifies this
      ensures !isRunning && progress == 100.0
      ensures timeLeft == (if isBreak then breakSeconds else focusSeconds)
      ensures isBreak == old(isBreak) && sessions == old(sessions) && chimes == old(chimes)
      ensures focusSeconds == old(focusSeconds) && breakSeconds == old(breakSeconds)
      ensures State() == TimerSession.ResetTimer(old(State()))
    {
      isRunning := false;
      timeLeft := if isBreak then breakSeconds else focusSeconds;
      progress := 100.0;
    }

    /**
     * The Focus/Break button: the other mode from its start, paused; sessions kept.
     * Specified by `TimerSession.SwitchMode`.
     */
    method SwitchMode()
      modifies this
      ensures isBreak == !old(isBreak) && !isRunning && progress == 100.0
      ensures timeLeft == (if isBreak then breakSeconds else focusSeconds)
      ensures sessions == old(sessions) && chimes == old(chimes)
      ensures focusSeconds == old(focusSeconds) && breakSeconds == old(breakSeconds)
      ensures State() == TimerSession.SwitchMode(old(State()))
    {
      var wasBreak := isBreak;
      isBreak := !wasBreak;
      timeLeft := if !wasBreak then breakSeconds else focusSeconds;
      isRunning := false;
      progress := 100.0;
    }

    /**
     * The settings panel sets a new focus length; in focus mode the countdown restarts.
     * Specified by `FocusTimeChange`.
     */
    method HandleFocusTimeChange(newTime: nat)
      modifies this
      ensures focusSeconds == newTime
      ensures !isBreak ==> timeLeft == newTime && progress == 100.0
      ensures isBreak ==> timeLeft == old(timeLeft) && progress == old(progress)
      ensures isBreak == old(isBreak) && isRunning == old(isRunning) && sessions == old(sessions)
      ensures breakSeconds == old(breakSeconds) && chimes == old(chimes)
      ensures State() == FocusTimeChange(old(State()), newTime)
    {
      focusSeconds := newTime;
      if !isBreak {
        timeLeft := newTime;
        progress := 100.0;
      }
    }

    /**
     * The settings panel sets a new break length; in break mode the countdown restarts.
     * Specified by `BreakTimeChange`.
     */
    method HandleBreakTimeChange(newTime: nat)
      modifies this
      ensures breakSeconds == newTime
      ensures isBreak ==> timeLeft == newTime && progress == 100.0
      ensures !isBreak ==> timeLeft == old(timeLeft) && progress == old(progress)
      ensures isBreak == old(isBreak) && isRunning == old(isRunning) && sessions == old(sessions)
      ensures focusSeconds == old(focusSeconds) && chimes == old(chimes)
      ensures State() == BreakTimeChange(old(State()), newTime)
    {
      breakSeconds := newTime;
      if isBreak {
        timeLeft := newTime;
        progress := 100.0;
      }
    }

    /**
     * One interval callback: a second off the countdown, and the ring set
     * from the remaining time before this second against the active length.
     * Specified by `TimerSession.Tick`.
     */
    method Tick()
      requires Valid(State())
      requires isRunning && timeLeft > 0
      modifies this
      ensures isRunning && isBreak == old(isBreak) && sessions == old(sessions) && chimes == old(chimes)
      ensures focusSeconds == old(focusSeconds) && breakSeconds == old(breakSeconds)
      ensures timeLeft == old(timeLeft) - 1
      ensures progress == ProgressPercent(old(timeLeft), if isBreak then breakSeconds else focusSeconds)
      ensures State() == TimerSession.Tick(old(State())) && Valid(State())
    {
      var totalTime := if isBreak then breakSeconds else focusSeconds;
      progress := ProgressPercent(timeLeft, totalTime);
      timeLeft := timeLeft - 1;
    }

    /**
     * The expiry branch of the effect, taken whenever the countdown is at
     * zero: stop, start the chime, count a session if a focus period ended,
     * and switch to the other mode at its full length with a full ring.
     * Specified by `TimerSession.Expire`.
     */
    method Expire()
      requires timeLeft == 0
      modifies this
      ensures !isRunning && progress == 100.0 && isBreak == !old(isBreak)
      ensures !old(isBreak) ==> sessions == old(sessions) + 1 && timeLeft == breakSeconds
      ensures old(isBreak) ==> sessions == old(sessions) && timeLeft == focusSeconds
      ensures focusSeconds == old(focusSeconds) && breakSeconds == old(breakSeconds)
      ensures chimes == old(chimes) + 1
      ensures State() == TimerSession.Expire(old(State())) && Valid(State())
    {
      isRunning := false;
      chimes := chimes + 1;
      if !isBreak {
        sessions := sessions + 1;
        isBreak := true;
        timeLeft := breakSeconds;
      } else {
        isBreak := false;
        timeLeft := focusSeconds;
      }
      progress := 100.0;
    }

    /**
     * One run of the effect body: a tick when running with time left, the
     * expiry branch when the countdown is at zero, and nothing otherwise
     * (a paused timer with time left waits). Specified by `Effect`.
     */
    method RunEffect()
      requires Valid(State())
      modifies this
      ensures State() == Effect(old(State())) && Valid(State())
      ensures chimes == if old(timeLeft) == 0 then old(chimes) + 1 else old(chimes)
    {
      if isRunning && timeLeft > 0 {
        Tick();
      } else if timeLeft == 0 {
        Expire();
      }
    }
  }
}
