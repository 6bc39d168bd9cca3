/**
 * The Pomodoro timer page: a countdown that alternates work phases
 * (Pomodoro) with short and long breaks, a long break after every fourth
 * completed Pomodoro, and the MM:SS display of the seconds left.
 *
 * TimerState and its transition functions describe the page's state
 * machine; the class Timer holds the component's state fields and updates
 * them step by step, each method tied to its transition function.
 */
module Pomodoros {
  import opened Digits
  import opened Wrappers

  datatype TimerMode = Pomodoro | ShortBreak | LongBreak

  const PomodoroDuration: nat := 25 * 60
  const ShortBreakDuration: nat := 5 * 60
  const LongBreakDuration: nat := 15 * 60
  /** A long break follows every LongBreakInterval-th completed Pomodoro. */
  const LongBreakInterval: nat := 4

  /** The number of seconds a phase of the given mode lasts. */
  function Duration(m: TimerMode): nat
  {
    match m
    case Pomodoro => PomodoroDuration
    case ShortBreak => ShortBreakDuration
    case LongBreak => LongBreakDuration
  }

  datatype TimerState = TimerState(secondsLeft: int, mode: TimerMode, isRunning: bool, pomodorosCompleted: nat)

  /** The state the page starts in. */
  const Initial := TimerState(PomodoroDuration, Pomodoro, false, 0)

  /** What every reachable state satisfies: a phase still has between one second and its full duration to go. */
  ghost predicate Inv(s: TimerState)
  {
    1 <= s.secondsLeft <= Duration(s.mode)
  }

  // ---------------------------------------------------------------------
  // Transitions
  // ---------------------------------------------------------------------

  /** resetTimer: switch to `newMode` with its full duration, stopped. */
  function Reset(s: TimerState, newMode: TimerMode): TimerState
  {
    s.(secondsLeft := Duration(newMode), mode := newMode, isRunning := false)
  }

  /** startTimer: the countdown runs. */
  function Start(s: TimerState): TimerState
  {
    s.(isRunning := true)
  }

  /** pauseTimer: the countdown stops. */
  function Pause(s: TimerState): TimerState
  {
    s.(isRunning := false)
  }

  /** resetToPomodoro: forget the completed Pomodoros and start over with a stopped Pomodoro. */
  function Restart(s: TimerState): TimerState
  {
    Reset(s.(pomodorosCompleted := 0), Pomodoro)
  }

  /** The mode that follows a finished phase, given the count of completed Pomodoros after it. */
  function NextMode(finished: TimerMode, completedAfter: nat): TimerMode
  {
    if finished != Pomodoro then Pomodoro
    else if completedAfter % LongBreakInterval == 0 then LongBreak
    else ShortBreak
  }

  /** The end of a phase: a finished Pomodoro is counted, then the timer is reset to the next mode. */
  function PhaseEnd(s: TimerState): TimerState
  {
    var completed := if s.mode == Pomodoro then s.pomodorosCompleted + 1 else s.pomodorosCompleted;
    Reset(s.(pomodorosCompleted := completed), NextMode(s.mode, completed))
  }

  /** One firing of the one-second interval. No interval fires while the timer is stopped. */
  function NextTick(s: TimerState): TimerState
  {
    if !s.isRunning then s
    else if s.secondsLeft <= 1 then PhaseEnd(s)
    else s.(secondsLeft := s.secondsLeft - 1)
  }

  /** `k` consecutive firings of the interval. */
  function Ticks(s: TimerState, k: nat): TimerState
    decreases k
  {
    if k == 0 then s else Ticks(NextTick(s), k - 1)
  }

  // ---------------------------------------------------------------------
  // Properties of the state machine
  // ---------------------------------------------------------------------

  /** resetTimer gives each mode its own duration: 1500, 300 or 900 seconds. */
  lemma ResetDurations(s: TimerState, m: TimerMode)
    ensures Reset(s, m).mode == m && !Reset(s, m).isRunning
    ensures Reset(s, m).pomodorosCompleted == s.pomodorosCompleted
    ensures Reset(s, m).secondsLeft == (if m == Pomodoro then 1500 else if m == ShortBreak then 300 else 900)
  {
  }

  /** A tick with more than one second left counts down by exactly one and changes nothing else. */
  lemma TickCountsDown(s: TimerState)
    requires s.isRunning && s.secondsLeft > 1
    ensures NextTick(s) == s.(secondsLeft := s.secondsLeft - 1)
  {
  }

  /**
   * The tick that ends a Pomodoro counts it, chooses a long break exactly when
   * the new count is a multiple of four and a short break otherwise, and
   * leaves the timer stopped at the full duration of that break.
   */
  lemma PomodoroPhaseEnd(s: TimerState)
    requires s.isRunning && s.secondsLeft <= 1 && s.mode == Pomodoro
    ensures NextTick(s).pomodorosCompleted == s.pomodorosCompleted + 1
    ensures NextTick(s).mode == LongBreak <==> (s.pomodorosCompleted + 1) % 4 == 0
    ensures NextTick(s).mode == ShortBreak <==> (s.pomodorosCompleted + 1) % 4 != 0
    ensures !NextTick(s).isRunning && NextTick(s).secondsLeft == Duration(NextTick(s).mode)
  {
  }

  /** The tick that ends a break returns to a stopped, full-length Pomodoro and does not touch the count. */
  lemma BreakPhaseEnd(s: TimerState)
    requires s.isRunning && s.secondsLeft <= 1 && s.mode != Pomodoro
    ensures NextTick(s) == TimerState(PomodoroDuration, Pomodoro, false, s.pomodorosCompleted)
  {
  }

  /** Pausing stops the countdown and changes nothing else. */
  lemma PauseOnlyStops(s: TimerState)
    ensures Pause(s).secondsLeft == s.secondsLeft && Pause(s).mode == s.mode
    ensures Pause(s).pomodorosCompleted == s.pomodorosCompleted && !Pause(s).isRunning
  {
  }

  /** resetToPomodoro returns to the initial state, whatever the state before. */
  lemma ResetToPomodoroIsInitial(s: TimerState)
    ensures Restart(s) == Initial
  {
  }

  /** Every transition keeps the state invariant; the initial state satisfies it. */
  lemma InvPreserved(s: TimerState, m: TimerMode)
    requires Inv(s)
    ensures Inv(Initial)
    ensures Inv(Reset(s, m)) && Inv(Start(s)) && Inv(Pause(s)) && Inv(Restart(s)) && Inv(NextTick(s))
  {
  }

  /**
   * A running phase with `d` seconds left ends on exactly the d-th tick: the
   * first d - 1 ticks only count down, and the d-th changes the mode and
   * stops the timer.
   */
  lemma {:induction false} PhaseLasts(s: TimerState, k: nat)
    requires s.isRunning && s.secondsLeft >= 1
    ensures k < s.secondsLeft ==> Ticks(s, k) == s.(secondsLeft := s.secondsLeft - k)
    ensures k == s.secondsLeft ==> Ticks(s, k).mode != s.mode && !Ticks(s, k).isRunning
    decreases k
  {
    if k > 0 && k <= s.secondsLeft {
      if s.secondsLeft == 1 {
        assert Ticks(s, k) == Ticks(PhaseEnd(s), 0);
      } else {
        var s' := NextTick(s);
        assert s' == s.(secondsLeft := s.secondsLeft - 1);
        PhaseLasts(s', k - 1);
      }
    }
  }

  // ---------------------------------------------------------------------
  // The MM:SS display
  // ---------------------------------------------------------------------

  /** A number with a '0' in front when it is a single digit. */
  function ZeroPadded(n: nat): string
  {
    (if n < 10 then "0" else "") + NatToString(n)
  }

  /** formatTime: whole minutes and remaining seconds, each at least two digits, joined by ':'. */
  function FormatTime(totalSeconds: nat): string
  {
    var minutes := totalSeconds / 60;
    var seconds := totalSeconds % 60;
    ZeroPadded(minutes) + ":" + ZeroPadded(seconds)
  }

  /** Splits at the first ':' (None when there is none). */
  function SplitAtColon(s: string): Option<(string, string)>
  {
    if |s| == 0 then None
    else if s[0] == ':' then Some(([], s[1..]))
    else match SplitAtColon(s[1..])
      case None => None
      case Some(parts) => Some(([s[0]] + parts.0, parts.1))
  }

  /** Reads "MM:SS" back as MM * 60 + SS; both fields must be digits and SS below 60. */
  function ParseClock(s: string): Option<nat>
  {
    match SplitAtColon(s)
    case None => None
    case Some(parts) =>
      var (mm, ss) := parts;
      if mm != [] && ss != [] && AllDigits(mm) && AllDigits(ss) && DigitsValue(ss) < 60
      then Some(DigitsValue(mm) * 60 + DigitsValue(ss))
      else None
  }

  lemma ZeroPaddedValue(n: nat)
    ensures AllDigits(ZeroPadded(n)) && DigitsValue(ZeroPadded(n)) == n
    ensures |ZeroPadded(n)| >= 2 && (n < 100 ==> |ZeroPadded(n)| == 2)
  {
    NatToStringRoundTrip(n);
    if n < 10 {
      LeadingZero(NatToString(n));
    } else {
      assert ZeroPadded(n) == NatToString(n);
      if n < 100 {
        assert NatToString(n) == NatToString(n / 10) + [DigitChar(n % 10)];
      }
    }
  }

  lemma {:induction false} SplitAtColonOf(a: string, b: string)
    requires AllDigits(a)
    ensures SplitAtColon(a + ":" + b) == Some((a, b))
    decreases |a|
  {
    var s := a + ":" + b;
    if |a| == 0 {
      assert s[1..] == b;
    } else {
      assert IsDigit(a[0]);
      assert s[1..] == a[1..] + ":" + b;
      assert AllDigits(a[1..]) by {
        forall i | 0 <= i < |a| - 1 ensures IsDigit(a[1..][i]) { assert a[1..][i] == a[i + 1]; }
      }
      SplitAtColonOf(a[1..], b);
      assert [s[0]] + a[1..] == a;
    }
  }

  /** The display can always be read back: decoding MM * 60 + SS gives the seconds shown. */
  lemma FormatTimeRoundTrip(t: nat)
    ensures ParseClock(FormatTime(t)) == Some(t)
  {
    var mm, ss := ZeroPadded(t / 60), ZeroPadded(t % 60);
    ZeroPaddedValue(t / 60);
    ZeroPaddedValue(t % 60);
    SplitAtColonOf(mm, ss);
  }

  /**
   * Below 100 minutes the display is exactly "MM:SS": five characters with
   * ':' in the middle, a seconds field below 60, and MM * 60 + SS == t.
   */
  lemma FormatTimeShape(t: nat)
    requires t < 6000
    ensures |FormatTime(t)| == 5 && FormatTime(t)[2] == ':'
    ensures AllDigits(FormatTime(t)[..2]) && AllDigits(FormatTime(t)[3..])
    ensures DigitsValue(FormatTime(t)[3..]) < 60
    ensures DigitsValue(FormatTime(t)[..2]) * 60 + DigitsValue(FormatTime(t)[3..]) == t
  {
    var mm, ss := ZeroPadded(t / 60), ZeroPadded(t % 60);
    ZeroPaddedValue(t / 60);
    ZeroPaddedValue(t % 60);
    var r := FormatTime(t);
    assert r == mm + ":" + ss;
    assert r[..2] == mm;
    assert r[3..] == ss;
  }

  /** Every reachable state is displayed as a five-character "MM:SS". */
  lemma DisplayFits(s: TimerState)
    requires Inv(s)
    ensures |FormatTime(s.secondsLeft)| == 5 && FormatTime(s.secondsLeft)[2] == ':'
  {
    FormatTimeShape(s.secondsLeft);
  }

  // ---------------------------------------------------------------------
  // The component's state, updated in place
  // ---------------------------------------------------------------------

  class Timer {
    var secondsLeft: int
    var mode: TimerMode
    var isRunning: bool
    var pomodorosCompleted: nat
    /** Whether a one-second interval is scheduled (intervalRef holds a handle). */
    var intervalActive: bool
    /** The mode and count the interval's callback captured when the timer was started. */
    var tickMode: TimerMode
    var tickCompleted: nat

    function State(): TimerState
      reads this
    {
      TimerState(secondsLeft, mode, isRunning, pomodorosCompleted)
    }

    /**
     * An interval is scheduled exactly while the timer runs, and the values its
     * callback captured are still the current ones.
     */
    ghost predicate Valid()
      reads this
    {
      && intervalActive == isRunning
      && (intervalActive ==> tickMode == mode && tickCompleted == pomodorosCompleted)
      && Inv(State())
    }

    constructor ()
      ensures Valid() && State() == Initial && !intervalActive
    {
      secondsLeft, mode, isRunning, pomodorosCompleted := PomodoroDuration, Pomodoro, false, 0;
      intervalActive := false;
      tickMode, tickCompleted := Pomodoro, 0;
    }

    method ResetTimer(newMode: TimerMode)
      modifies this
      ensures Valid() && !intervalActive
      ensures State() == Reset(old(State()), newMode)
    {
      if intervalActive {
        intervalActive := false;
      }
      var duration := 0;
      match newMode {
        case Pomodoro => duration := PomodoroDuration;
        case ShortBreak => duration := ShortBreakDuration;
        case LongBreak => duration := LongBreakDuration;
      }
      mode := newMode;
      secondsLeft := duration;
      isRunning := false;
    }

    method StartTimer()
      requires Valid()
      modifies this
      ensures Valid() && intervalActive
      ensures State() == Start(old(State()))
    {
      isRunning := true;
      intervalActive := true;
      tickMode, tickCompleted := mode, pomodorosCompleted;
    }

    /** The body of the interval callback, run once a second while the interval is scheduled. */
    method Tick()
      requires Valid()
      modifies this
      ensures Valid()
      ensures State() == NextTick(old(State()))
    {
      if !intervalActive {
        return;
      }
      var prevSeconds := secondsLeft;
      if prevSeconds <= 1 {
        if tickMode == Pomodoro {
          var newPomodorosCompleted := tickCompleted + 1;
          pomodorosCompleted := newPomodorosCompleted;
          if newPomodorosCompleted % LongBreakInterval == 0 {
            ResetTimer(LongBreak);
          } else {
            ResetTimer(ShortBreak);
          }
        } else {
          ResetTimer(Pomodoro);
        }
      } else {
        secondsLeft := prevSeconds - 1;
      }
    }

    method PauseTimer()
      requires Valid()
      modifies this
      ensures Valid() && !intervalActive
      ensures State() == Pause(old(State()))
    {
      isRunning := false;
      if intervalActive {
        intervalActive := false;
      }
    }

    method ResetToPomodoro()
      modifies this
      ensures Valid() && !intervalActive
      ensures State() == Restart(old(State()))
      ensures State() == Initial
    {
      pomodorosCompleted := 0;
      ResetTimer(Pomodoro);
    }
  }
}
