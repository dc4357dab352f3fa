/**
 * The focus/break session machine of src/components/PomodoroTimer.tsx as
 * values: the timer's state, one function per thing that can happen to it,
 * and what holds of every state reachable from the defaults.
 *
 * Durations and the remaining time are whole seconds. `progress` is the
 * percentage the ring shows, kept as an exact rational.
 */
module TimerSession {
  import Sidebar

  const DefaultFocus: nat := 25 * 60
  const DefaultBreak: nat := 5 * 60

  datatype TimerState = TimerState(
    focusSeconds: nat,
    breakSeconds: nat,
    timeLeft: nat,
    isRunning: bool,
    isBreak: bool,
    progress: real,
    sessions: nat)

  /** The length of the mode the timer is in. */
  function ActiveDuration(s: TimerState): nat {
    if s.isBreak then s.breakSeconds else s.focusSeconds
  }

  /** The countdown never exceeds its mode's length, and the ring shows a percentage. */
  predicate Valid(s: TimerState) {
    s.timeLeft <= ActiveDuration(s) && 0.0 <= s.progress <= 100.0
  }

  /** Valid, and both durations where the settings buttons can put them. */
  predicate Settled(s: TimerState) {
    && Valid(s)
    && Sidebar.OnGrid(s.focusSeconds, Sidebar.FocusStep, Sidebar.FocusMin, Sidebar.FocusMax)
    && Sidebar.OnGrid(s.breakSeconds, Sidebar.BreakStep, Sidebar.BreakMin, Sidebar.BreakMax)
  }

  /** The state on page load: 25 minutes of focus, paused, full ring, no sessions. */
  function Initial(): (s: TimerState)
    ensures Settled(s) && !s.isBreak && !s.isRunning
    ensures s.timeLeft == ActiveDuration(s) == 1500 && s.breakSeconds == 300 && s.sessions == 0
  {
    TimerState(DefaultFocus, DefaultBreak, DefaultFocus, false, false, 100.0, 0)
  }

  /** `(left / total) * 100`, exactly. */
  function ProgressPercent(left: nat, total: nat): (p: real)
    requires total > 0
    ensures p * total as real == left as real * 100.0
    ensures 0.0 <= p
    ensures 0 < left ==> 0.0 < p
    ensures left <= total ==> p <= 100.0
  {
    var q := left as real / total as real;
    assert q * total as real == left as real;
    assert left <= total ==> q <= 1.0;
    q * 100.0
  }

  // ---------------------------------------------------------------------
  // The buttons
  // ---------------------------------------------------------------------

  /** Start/Pause. */
  function ToggleTimer(s: TimerState): (r: TimerState)
    ensures r.isRunning == !s.isRunning
    ensures Valid(r) == Valid(s) && Settled(r) == Settled(s)
  {
    s.(isRunning := !s.isRunning)
  }

  /** Reset: paused, full ring, the current mode's whole length again. */
  function ResetTimer(s: TimerState): (r: TimerState)
    ensures Valid(r) && r.timeLeft == ActiveDuration(r) && !r.isRunning
    ensures r.isBreak == s.isBreak && r.sessions == s.sessions
    ensures Settled(s) ==> Settled(r)
  {
    s.(isRunning := false, timeLeft := ActiveDuration(s), progress := 100.0)
  }

  /** The Focus/Break button: the other mode, from its start, paused; no session is counted. */
  function SwitchMode(s: TimerState): (r: TimerState)
    ensures Valid(r) && r.timeLeft == ActiveDuration(r) && !r.isRunning
    ensures r.isBreak == !s.isBreak && r.sessions == s.sessions
    ensures Settled(s) ==> Settled(r)
  {
    s.(isBreak := !s.isBreak,
       timeLeft := if !s.isBreak then s.breakSeconds else s.focusSeconds,
       isRunning := false,
       progress := 100.0)
  }

  /**
   * A new focus length. In focus mode the countdown restarts at it with a
   * full ring; in break mode the countdown and the ring are untouched.
   */
  function FocusTimeChange(s: TimerState, newTime: nat): (r: TimerState)
    ensures r.focusSeconds == newTime && r.breakSeconds == s.breakSeconds
    ensures !s.isBreak ==> r.timeLeft == newTime && r.progress == 100.0
    ensures s.isBreak ==> r.timeLeft == s.timeLeft && r.progress == s.progress
    ensures r.isBreak == s.isBreak && r.isRunning == s.isRunning && r.sessions == s.sessions
    ensures Valid(s) ==> Valid(r)
  {
    if !s.isBreak then s.(focusSeconds := newTime, timeLeft := newTime, progress := 100.0)
    else s.(focusSeconds := newTime)
  }

  /** A new break length; the mirror image of FocusTimeChange. */
  function BreakTimeChange(s: TimerState, newTime: nat): (r: TimerState)
    ensures r.breakSeconds == newTime && r.focusSeconds == s.focusSeconds
    ensures s.isBreak ==> r.timeLeft == newTime && r.progress == 100.0
    ensures !s.isBreak ==> r.timeLeft == s.timeLeft && r.progress == s.progress
    ensures r.isBreak == s.isBreak && r.isRunning == s.isRunning && r.sessions == s.sessions
    ensures Valid(s) ==> Valid(r)
  {
    if s.isBreak then s.(breakSeconds := newTime, timeLeft := newTime, progress := 100.0)
    else s.(breakSeconds := newTime)
  }

  // ---------------------------------------------------------------------
  // The timer effect
  // ---------------------------------------------------------------------

  /** The guard under which the effect schedules a one-second tick. */
  predicate CanTick(s: TimerState) {
    s.isRunning && s.timeLeft > 0
  }

  /**
   * One second elapses. The ring is set from the remaining time as it was
   * BEFORE this second, so the ring lags the digits by one second and is not
   * empty after the last tick.
   */
  function Tick(s: TimerState): (r: TimerState)
    requires Valid(s) && CanTick(s)
    ensures Valid(r) && r.timeLeft == s.timeLeft - 1
    ensures r.progress * ActiveDuration(s) as real == s.timeLeft as real * 100.0
    ensures 0.0 < r.progress
    ensures r.isRunning && r.isBreak == s.isBreak && r.sessions == s.sessions
    ensures r.focusSeconds == s.focusSeconds && r.breakSeconds == s.breakSeconds
  {
    s.(timeLeft := s.timeLeft - 1, progress := ProgressPercent(s.timeLeft, ActiveDuration(s)))
  }

  /**
   * The countdown is at zero: stop, and move to the other mode at its full
   * length. Only the end of a focus period counts as a session.
   */
  function Expire(s: TimerState): (r: TimerState)
    requires s.timeLeft == 0
    ensures !r.isRunning && r.progress == 100.0 && r.isBreak == !s.isBreak
    ensures r.timeLeft == ActiveDuration(r)
    ensures r.sessions == if s.isBreak then s.sessions else s.sessions + 1
    ensures r.focusSeconds == s.focusSeconds && r.breakSeconds == s.breakSeconds
    ensures Valid(r) && (Settled(s) ==> Settled(r))
  {
    if !s.isBreak then
      s.(isRunning := false, sessions := s.sessions + 1, isBreak := true,
         timeLeft := s.breakSeconds, progress := 100.0)
    else
      s.(isRunning := false, isBreak := false, timeLeft := s.focusSeconds, progress := 100.0)
  }

  /** One run of the effect: a tick when running with time left, expiry at zero, else nothing. */
  function Effect(s: TimerState): (r: TimerState)
    requires Valid(s)
    ensures Valid(r) && (Settled(s) ==> Settled(r))
    ensures r.sessions == if s.timeLeft == 0 && !s.isBreak then s.sessions + 1 else s.sessions
  {
    if CanTick(s) then Tick(s)
    else if s.timeLeft == 0 then Expire(s)
    else s
  }

  // ---------------------------------------------------------------------
  // Runs
  // ---------------------------------------------------------------------

  /** What the user and the clock can do. The duration buttons go through the settings panel's steps. */
  datatype Event = Toggle | Reset | Switch | FocusDown | FocusUp | BreakDown | BreakUp | Elapse

  function Apply(s: TimerState, e: Event): (r: TimerState)
    requires Valid(s)
    ensures Valid(r) && (Settled(s) ==> Settled(r))
    ensures r.sessions == if e == Elapse && s.timeLeft == 0 && !s.isBreak then s.sessions + 1 else s.sessions
  {
    match e
    case Toggle => ToggleTimer(s)
    case Reset => ResetTimer(s)
    case Switch => SwitchMode(s)
    case FocusDown => FocusTimeChange(s, Sidebar.FocusDecrement(s.focusSeconds))
    case FocusUp => FocusTimeChange(s, Sidebar.FocusIncrement(s.focusSeconds))
    case BreakDown => BreakTimeChange(s, Sidebar.BreakDecrement(s.breakSeconds))
    case BreakUp => BreakTimeChange(s, Sidebar.BreakIncrement(s.breakSeconds))
    case Elapse => Effect(s)
  }

  /** The state after a sequence of events. */
  function Run(s: TimerState, events: seq<Event>): (r: TimerState)
    requires Valid(s)
    ensures Valid(r) && (Settled(s) ==> Settled(r))
    ensures s.sessions <= r.sessions <= s.sessions + |events|
    decreases |events|
  {
    if events == [] then s else Run(Apply(s, events[0]), events[1..])
  }

  /**
   * From page load, whatever is pressed and however long it runs, the
   * countdown stays within the active mode's length, the ring within
   * 0..100 %, the focus length a multiple of 5 minutes in 5..60 and the
   * break length a multiple of 1 minute in 1..30.
   */
  lemma ReachableStatesSettled(events: seq<Event>)
    ensures Settled(Run(Initial(), events))
    ensures var r := Run(Initial(), events);
      0 <= r.timeLeft <= ActiveDuration(r) && 60 <= ActiveDuration(r) <= 3600
  {
  }

  /** `n` seconds of an uninterrupted countdown. */
  function Ticks(s: TimerState, n: nat): (r: TimerState)
    requires Valid(s) && s.isRunning && n <= s.timeLeft
    ensures Valid(r) && r.timeLeft == s.timeLeft - n
    ensures r.isRunning && r.isBreak == s.isBreak && r.sessions == s.sessions
    ensures r.focusSeconds == s.focusSeconds && r.breakSeconds == s.breakSeconds
    decreases n
  {
    if n == 0 then s else Tick(Ticks(s, n - 1))
  }

  /** `n` runs of the effect with nothing else happening. */
  function Elapsed(s: TimerState, n: nat): (r: TimerState)
    requires Valid(s)
    ensures Valid(r)
    decreases n
  {
    if n == 0 then s else Effect(Elapsed(s, n - 1))
  }

  /** While time is left, each run of the effect of a running timer is exactly one tick. */
  lemma {:induction false} ElapsedIsTicks(s: TimerState, n: nat)
    requires Valid(s) && s.isRunning && n <= s.timeLeft
    ensures Elapsed(s, n) == Ticks(s, n)
  {
    if n > 0 {
      ElapsedIsTicks(s, n - 1);
      assert CanTick(Ticks(s, n - 1));
    }
  }

  /**
   * A running timer with `N` seconds left ticks exactly `N` times and then
   * takes the expiry branch once: a finished focus period counts one session
   * and leaves a paused break of the configured length, a finished break
   * leaves a paused focus period.
   */
  lemma {:induction false} CountdownCompletes(s: TimerState)
    requires Valid(s) && s.isRunning
    ensures forall k :: 0 <= k < s.timeLeft ==> CanTick(Elapsed(s, k))
    ensures Elapsed(s, s.timeLeft).timeLeft == 0 && !CanTick(Elapsed(s, s.timeLeft))
    ensures var r := Elapsed(s, s.timeLeft + 1);
      && !r.isRunning && r.isBreak == !s.isBreak && r.progress == 100.0
      && r.timeLeft == (if s.isBreak then s.focusSeconds else s.breakSeconds)
      && r.sessions == (if s.isBreak then s.sessions else s.sessions + 1)
      && r.focusSeconds == s.focusSeconds && r.breakSeconds == s.breakSeconds
  {
    forall k | 0 <= k < s.timeLeft
      ensures CanTick(Elapsed(s, k))
    {
      ElapsedIsTicks(s, k);
    }
    ElapsedIsTicks(s, s.timeLeft);
  }

  /** Start from page load and let 25 minutes pass: one session, a paused 5-minute break. */
  lemma FirstFocusSession()
    ensures var r := Elapsed(ToggleTimer(Initial()), 1501);
      r.sessions == 1 && r.isBreak && !r.isRunning && r.timeLeft == 300 && r.progress == 100.0
  {
    CountdownCompletes(ToggleTimer(Initial()));
  }
}
