/** The three-minute countdown: a seconds counter decremented once per
    interval tick while running, which fires the completion callback when it
    reaches the end, a pause toggle, and the `m:ss` display. */
module Timer {
  import opened Digits

  /** The wizard starts the timer with 180 seconds. */
  const ThreeMinutes: nat := 180

  /** The component's state. `ticking` says whether an interval is live:
      the effect installs one whenever `isRunning` becomes true and the tick
      that reaches the end clears it. The callbacks `onComplete` and
      `onCancel` are counted. */
  datatype TimerState = TimerState(seconds: int, isRunning: bool, ticking: bool, completions: nat, cancels: nat)

  /** An interval is only live while the timer runs. */
  predicate ValidTimer(s: TimerState) {
    s.ticking ==> s.isRunning
  }

  /** Mounting: `seconds` is `initialSeconds` and the timer runs. */
  function Started(initialSeconds: int): (s: TimerState)
    ensures ValidTimer(s) && s.seconds == initialSeconds && s.isRunning && s.ticking
    ensures s.completions == 0 && s.cancels == 0
  {
    TimerState(initialSeconds, true, true, 0, 0)
  }

  /** One interval firing: the updater maps `prev <= 1` to 0, clearing the
      interval and calling `onComplete`, and any other value to `prev - 1`.
      Without a live interval nothing fires. */
  function Tick(s: TimerState): (r: TimerState)
    requires ValidTimer(s)
    ensures ValidTimer(r) && r.isRunning == s.isRunning && r.cancels == s.cancels
    ensures s.ticking ==> r.seconds >= 0
    ensures r.completions == s.completions + (if s.ticking && s.seconds <= 1 then 1 else 0)
    ensures !s.ticking ==> r == s
    ensures s.ticking && s.seconds > 1 ==> r == s.(seconds := s.seconds - 1)
    ensures s.ticking && s.seconds <= 1 ==> r.seconds == 0 && !r.ticking
  {
    if !s.ticking then s
    else if s.seconds <= 1 then s.(seconds := 0, ticking := false, completions := s.completions + 1)
    else s.(seconds := s.seconds - 1)
  }

  /** The pause button: `setIsRunning(!isRunning)`. The effect's cleanup
      clears the old interval and, when the timer now runs, a new one is
      installed. */
  function TogglePause(s: TimerState): (r: TimerState)
    requires ValidTimer(s)
    ensures ValidTimer(r) && r.isRunning == !s.isRunning && r.ticking == r.isRunning
    ensures r.seconds == s.seconds && r.completions == s.completions && r.cancels == s.cancels
  {
    s.(isRunning := !s.isRunning, ticking := !s.isRunning)
  }

  /** The cancel button only calls `onCancel`. */
  function Cancel(s: TimerState): (r: TimerState)
    requires ValidTimer(s)
    ensures ValidTimer(r) && r == s.(cancels := s.cancels + 1)
  {
    s.(cancels := s.cancels + 1)
  }

  /** `n` interval firings in a row. */
  function Ticks(s: TimerState, n: nat): (r: TimerState)
    requires ValidTimer(s)
    ensures ValidTimer(r)
    decreases n
  {
    if n == 0 then s else Ticks(Tick(s), n - 1)
  }

  /** Before the end, `k` ticks take `k` seconds off and complete nothing. */
  lemma {:induction false} CountsDown(s: TimerState, k: nat)
    requires ValidTimer(s) && s.ticking && k < s.seconds
    ensures Ticks(s, k) == s.(seconds := s.seconds - k)
    decreases k
  {
    if k > 0 {
      CountsDown(Tick(s), k - 1);
    }
  }

  /** Once enough ticks have fired, the counter rests at 0, the interval is
      gone and `onComplete` has been called exactly once, however many more
      ticks come. */
  lemma {:induction false} CompletesOnce(s: TimerState, n: nat)
    requires ValidTimer(s) && s.ticking && n >= s.seconds && n >= 1
    ensures Ticks(s, n) == s.(seconds := 0, ticking := false, completions := s.completions + 1)
    decreases n
  {
    if s.seconds <= 1 {
      Frozen(Tick(s), n - 1);
    } else {
      CompletesOnce(Tick(s), n - 1);
    }
  }

  /** With no live interval (paused, or already complete) ticks change nothing. */
  lemma {:induction false} Frozen(s: TimerState, n: nat)
    requires ValidTimer(s) && !s.ticking
    ensures Ticks(s, n) == s
    decreases n
  {
    if n > 0 {
      Frozen(Tick(s), n - 1);
    }
  }

  /** The wizard's timer: one second before the end it shows 1 and has not
      completed; after 180 ticks it has completed once. */
  lemma ThreeMinuteRun()
    ensures Ticks(Started(ThreeMinutes), ThreeMinutes - 1).seconds == 1
    ensures Ticks(Started(ThreeMinutes), ThreeMinutes - 1).completions == 0
    ensures Ticks(Started(ThreeMinutes), ThreeMinutes).seconds == 0
    ensures Ticks(Started(ThreeMinutes), ThreeMinutes).completions == 1
  {
    CountsDown(Started(ThreeMinutes), ThreeMinutes - 1);
    CompletesOnce(Started(ThreeMinutes), ThreeMinutes);
  }

  /** Pausing and resuming keeps the remaining seconds and restarts the
      interval. */
  lemma PauseResume(s: TimerState)
    requires ValidTimer(s) && s.isRunning
    ensures TogglePause(TogglePause(s)) == s.(ticking := true)
    ensures Ticks(TogglePause(s), 1) == TogglePause(s)
  {
    Frozen(TogglePause(s), 1);
  }

  // ---------------------------------------------------------------------

  /** `formatTime`: whole minutes with no leading zero, a colon, and the remaining seconds padded
      to two digits. The colon is followed by exactly two digits; read back,
      the two fields give the minutes and the seconds below 60 that make
      `t`. */
  function FormatTime(t: nat): (r: string)
    ensures |r| >= 4 && r[|r| - 3] == ':'
    ensures AllDigits(r[..|r| - 3]) && AllDigits(r[|r| - 2..])
    ensures DigitsValue(r[|r| - 2..]) < 60
    ensures DigitsValue(r[..|r| - 3]) * 60 + DigitsValue(r[|r| - 2..]) == t
    ensures |r| > 4 ==> r[0] != '0'
  {
    var minutes := NatToString(t / 60);
    var secs := Padded(t % 60, 2);
    NatToStringRoundTrip(t / 60);
    PaddedReadsBack(t % 60, 2);
    var r := minutes + ":" + secs;
    assert r[..|r| - 3] == minutes;
    assert r[|r| - 2..] == secs;
    r
  }

  /** The initial display of the wizard's timer. */
  lemma ThreeMinutesShown()
    ensures FormatTime(ThreeMinutes) == "3:00"
  {
    assert ThreeMinutes / 60 == 3 && ThreeMinutes % 60 == 0;
    assert NatToString(3) == "3";
    assert NatToString(0) == "0";
    assert Zeros(1) == "0";
    assert PadStart("0", 2) == "00";
    assert Padded(0, 2) == "00";
  }

  // ---------------------------------------------------------------------

  /** The component, with its state updated in place by the interval, the
      pause button and the cancel button. */
  class CountdownTimer {
    var seconds: int
    var isRunning: bool
    var ticking: bool
    var completions: nat
    var cancels: nat

    function State(): TimerState
      reads this
    {
      TimerState(seconds, isRunning, ticking, completions, cancels)
    }

    constructor (initialSeconds: int)
      ensures State() == Started(initialSeconds)
    {
      seconds := initialSeconds;
      isRunning := true;
      ticking := true;
      completions := 0;
      cancels := 0;
    }

    /** The interval callback. */
    method HandleTick()
      requires ValidTimer(State())
      modifies this
      ensures ValidTimer(State()) && State() == Tick(old(State()))
    {
      if ticking {
        if seconds <= 1 {
          ticking := false;
          completions := completions + 1;
          seconds := 0;
        } else {
          seconds := seconds - 1;
        }
      }
    }

    method HandlePauseClick()
      requires ValidTimer(State())
      modifies this
      ensures ValidTimer(State()) && State() == TogglePause(old(State()))
    {
      isRunning := !isRunning;
      ticking := isRunning;
    }

    method HandleCancelClick()
      requires ValidTimer(State())
      modifies this
      ensures ValidTimer(State()) && State() == Cancel(old(State()))
    {
      cancels := cancels + 1;
    }

    /** The text in the middle of the ring. */
    method Display() returns (text: string)
      requires seconds >= 0
      ensures text == FormatTime(seconds)
    {
      text := FormatTime(seconds);
    }
  }
}
