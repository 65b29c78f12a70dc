/**
 * The focus timer dialog: a 25-minute focus phase and a 5-minute break,
 * advanced one second per tick of an interval, with the `MM:SS` display.
 */
module FocusTimer {
  import opened Options
  import opened Strings
  import opened TaskTypes
  import opened TaskStore

  const FOCUS_TIME: nat := 25 * 60
  const BREAK_TIME: nat := 5 * 60

  datatype Mode = Focus | Break

  /** The length of a full phase of the given mode, in seconds. */
  function PhaseLength(mode: Mode): (n: nat)
    ensures n == FOCUS_TIME || n == BREAK_TIME
  {
    if mode == Focus then FOCUS_TIME else BREAK_TIME
  }

  /**
   * `calculateProgress`: the share of the phase already elapsed, as a
   * percentage, computed exactly rather than in floating point.
   */
  function Progress(mode: Mode, timeLeft: nat): (r: real)
    requires timeLeft <= PhaseLength(mode)
    ensures 0.0 <= r <= 100.0
    ensures r == 0.0 <==> timeLeft == PhaseLength(mode)
    ensures r == 100.0 <==> timeLeft == 0
  {
    var total := PhaseLength(mode) as real;
    (total - timeLeft as real) / total * 100.0
  }

  /** Each second counted down adds the same share, so less time left never shows less progress. */
  lemma ProgressStep(mode: Mode, a: nat, b: nat)
    requires a <= b <= PhaseLength(mode)
    ensures Progress(mode, a) - Progress(mode, b) == (b - a) as real * 100.0 / PhaseLength(mode) as real
    ensures Progress(mode, b) <= Progress(mode, a)
  {
  }

  /** `formatTime`: minutes and seconds, each padded to two digits, around a colon. */
  function FormatTime(seconds: nat): (r: string)
    ensures |r| >= 5 && r[|r| - 3] == ':'
  {
    PadTwo(NatToString(seconds / 60)) + ":" + PadTwo(NatToString(seconds % 60))
  }

  /** Below 100 minutes the text is two minute digits, a colon and two second digits. */
  lemma FormatTimeDigits(seconds: nat, m: nat, sec: nat)
    requires seconds == m * 60 + sec && sec < 60 && m < 100
    ensures FormatTime(seconds) == [DigitChar(m / 10), DigitChar(m % 10), ':', DigitChar(sec / 10), DigitChar(sec % 10)]
  {
    assert seconds / 60 == m && seconds % 60 == sec;
    PaddedPair(m, sec);
  }

  lemma PaddedPair(x: nat, y: nat)
    requires x < 100 && y < 100
    ensures PadTwo(NatToString(x)) + ":" + PadTwo(NatToString(y))
            == [DigitChar(x / 10), DigitChar(x % 10), ':', DigitChar(y / 10), DigitChar(y % 10)]
  {
    var a, b := PadTwo(NatToString(x)), PadTwo(NatToString(y));
    PadTwoDigits(x);
    PadTwoDigits(y);
    ColonBetween(a, b);
  }

  lemma ColonBetween(a: string, b: string)
    requires |a| == 2 && |b| == 2
    ensures a + ":" + b == [a[0], a[1], ':', b[0], b[1]]
  {
  }

  /** Reads an `MM:SS` display back into seconds; `None` for any other text. */
  function ReadTime(s: string): (r: Option<int>)
    ensures r.Some? ==> |s| == 5 && s[2] == ':'
  {
    if |s| == 5 && IsDigit(s[0]) && IsDigit(s[1]) && s[2] == ':' && IsDigit(s[3]) && IsDigit(s[4])
       && DigitValue(s[3]) < 6
    then Some((DigitValue(s[0]) * 10 + DigitValue(s[1])) * 60 + DigitValue(s[3]) * 10 + DigitValue(s[4]))
    else None
  }

  /** The display is lossless below 100 minutes: reading it gives back the seconds. */
  lemma FormatTimeRoundTrip(seconds: nat)
    requires seconds < 6000
    ensures ReadTime(FormatTime(seconds)) == Some(seconds)
  {
    RoundTripAt(seconds, seconds / 60, seconds % 60);
  }

  lemma RoundTripAt(seconds: nat, m: nat, sec: nat)
    requires seconds == m * 60 + sec && sec < 60 && m < 100
    ensures ReadTime(FormatTime(seconds)) == Some(seconds)
  {
    FormatTimeDigits(seconds, m, sec);
    var d := [DigitChar(m / 10), DigitChar(m % 10), ':', DigitChar(sec / 10), DigitChar(sec % 10)];
    ReadDisplay(seconds, m, sec, d);
  }

  lemma ReadDisplay(seconds: nat, m: nat, sec: nat, d: string)
    requires m < 100 && sec < 60 && seconds == m * 60 + sec
    requires d == [DigitChar(m / 10), DigitChar(m % 10), ':', DigitChar(sec / 10), DigitChar(sec % 10)]
    ensures ReadTime(d) == Some(seconds)
  {
    assert m / 10 * 10 + m % 10 == m;
    assert sec / 10 * 10 + sec % 10 == sec;
  }

  /** A full focus phase shows `25:00`, a minute and five seconds `01:05`. */
  lemma FormatTimeExamples()
    ensures FormatTime(FOCUS_TIME) == ['2', '5', ':', '0', '0']
    ensures FormatTime(65) == ['0', '1', ':', '0', '5']
  {
    FormatTimeDigits(1500, 25, 0);
    FormatTimeDigits(65, 1, 5);
    assert DigitChar(0) == '0' && DigitChar(1) == '1' && DigitChar(2) == '2' && DigitChar(5) == '5';
  }

  /**
   * The dialog's timer state. `running` stands for a live interval handle
   * (`timerRef.current` set); `isActive` is the start/pause button's state.
   */
  class Timer {
    var mode: Mode
    var timeLeft: nat
    var isActive: bool
    var cycles: nat
    var running: bool

    /** The count never leaves 1..phase length, and an interval only runs while the timer is active. */
    predicate Valid()
      reads this
    {
      1 <= timeLeft <= PhaseLength(mode) && (running ==> isActive)
    }

    constructor ()
      ensures Valid()
      ensures mode == Focus && timeLeft == FOCUS_TIME && cycles == 0 && !isActive && !running
    {
      mode, timeLeft, isActive, cycles, running := Focus, FOCUS_TIME, false, 0, false;
    }

    /**
     * One second of the interval: above one second left, count down by one;
     * otherwise stop the interval and switch phase, counting a finished
     * focus phase as a cycle. `isActive` is left as it was.
     */
    method Tick()
      requires Valid() && running
      modifies this
      ensures Valid()
      ensures old(timeLeft) > 1 ==>
                timeLeft == old(timeLeft) - 1 && mode == old(mode) && cycles == old(cycles) && running
      ensures old(timeLeft) <= 1 && old(mode) == Focus ==>
                mode == Break && timeLeft == BREAK_TIME && cycles == old(cycles) + 1 && !running
      ensures old(timeLeft) <= 1 && old(mode) == Break ==>
                mode == Focus && timeLeft == FOCUS_TIME && cycles == old(cycles) && !running
      ensures isActive == old(isActive)
      ensures State(mode, timeLeft, cycles) == Step(State(old(mode), old(timeLeft), old(cycles)))
    {
      if timeLeft <= 1 {
        running := false;
        if mode == Focus {
          cycles := cycles + 1;
          mode := Break;
          timeLeft := BREAK_TIME;
        } else {
          mode := Focus;
          timeLeft := FOCUS_TIME;
        }
      } else {
        timeLeft := timeLeft - 1;
      }
    }

    /** `toggleTimer`: pausing clears the interval, starting sets one; `isActive` flips either way. */
    method Toggle()
      requires Valid()
      modifies this
      ensures Valid()
      ensures isActive == !old(isActive)
      ensures running == !old(isActive)
      ensures mode == old(mode) && timeLeft == old(timeLeft) && cycles == old(cycles)
    {
      if isActive {
        running := false;
      } else {
        running := true;
      }
      isActive := !isActive;
    }

    /** `resetTimer`: back to the initial state. */
    method Reset()
      requires Valid()
      modifies this
      ensures Valid()
      ensures mode == Focus && timeLeft == FOCUS_TIME && cycles == 0 && !isActive && !running
    {
      running := false;
      isActive := false;
      mode := Focus;
      timeLeft := FOCUS_TIME;
      cycles := 0;
    }

    /** `handleCompleteTask`: toggles the dialog's task once, when there is one. */
    method CompleteTask(store: Store, task: Option<Task>) returns (scheduled: seq<Task>)
      modifies store
      ensures task.Some? ==> store.tasks == Toggled(old(store.tasks), task.value.id)
                             && scheduled == RecurrenceSources(old(store.tasks), task.value.id)
      ensures task.None? ==> store.tasks == old(store.tasks) && scheduled == []
    {
      if task.Some? {
        scheduled := store.ToggleTaskStatus(task.value.id);
      } else {
        scheduled := [];
      }
    }
  }

  /** The timer state as a value, for reasoning about runs of ticks. */
  datatype State = State(mode: Mode, timeLeft: nat, cycles: nat)

  /** What one tick does to the state (the specification `Timer.Tick` follows). */
  function Step(s: State): (r: State)
    requires 1 <= s.timeLeft <= PhaseLength(s.mode)
    ensures 1 <= r.timeLeft <= PhaseLength(r.mode)
    ensures r.cycles == s.cycles || r.cycles == s.cycles + 1
  {
    if s.timeLeft > 1 then s.(timeLeft := s.timeLeft - 1)
    else if s.mode == Focus then State(Break, BREAK_TIME, s.cycles + 1)
    else State(Focus, FOCUS_TIME, s.cycles)
  }

  /** `n` ticks in a row. */
  function Steps(s: State, n: nat): (r: State)
    requires 1 <= s.timeLeft <= PhaseLength(s.mode)
    ensures 1 <= r.timeLeft <= PhaseLength(r.mode)
    decreases n
  {
    if n == 0 then s else Steps(Step(s), n - 1)
  }

  /** Within a phase, `k` ticks take `k` seconds off and change nothing else. */
  lemma {:induction false} StepsCountDown(s: State, k: nat)
    requires 1 <= s.timeLeft <= PhaseLength(s.mode) && k < s.timeLeft
    ensures Steps(s, k) == s.(timeLeft := s.timeLeft - k)
    decreases k
  {
    if k > 0 {
      StepsCountDown(Step(s), k - 1);
    }
  }

  /** A whole focus phase — 1500 ticks from a fresh focus count — ends in a full break and one more cycle. */
  lemma FocusPhaseEndsInBreak(cycles: nat)
    ensures Steps(State(Focus, FOCUS_TIME, cycles), FOCUS_TIME) == State(Break, BREAK_TIME, cycles + 1)
  {
    var s := State(Focus, FOCUS_TIME, cycles);
    StepsCountDown(s, FOCUS_TIME - 1);
    StepsSplit(s, FOCUS_TIME - 1, 1);
  }

  /** A run of ticks splits at any point. */
  lemma {:induction false} StepsSplit(s: State, a: nat, b: nat)
    requires 1 <= s.timeLeft <= PhaseLength(s.mode)
    ensures Steps(s, a + b) == Steps(Steps(s, a), b)
    decreases a
  {
    if a > 0 {
      StepsSplit(Step(s), a - 1, b);
    }
  }
}
