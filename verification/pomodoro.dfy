/**
 * The Pomodoro widget: a work/break countdown over `time`, `isActive`,
 * `mode` and `cycles`, driven by the timer effect (one call of `Step` per
 * run of the effect: a second elapsing, or an expired phase switching),
 * the play/pause, reset and custom-duration handlers, the `mm:ss`
 * display and the cycle statistics.
 */
module Pomodoro {
  import opened Wrappers
  import opened Text

  datatype Mode = Work | Break

  /** Length of a work phase (25 minutes) and of a break (5 minutes), in seconds. */
  const WorkSeconds: nat := 25 * 60
  const BreakSeconds: nat := 5 * 60

  /** The accepted range of a custom duration, in minutes. */
  const MinCustomMinutes: int := 1
  const MaxCustomMinutes: int := 120

  /** The length a phase starts with. */
  function PhaseLength(m: Mode): (n: nat)
    ensures n == WorkSeconds || n == BreakSeconds
    ensures m == Work <==> n == WorkSeconds
  {
    if m == Work then WorkSeconds else BreakSeconds
  }

  /** `formatTime`: whole minutes, a colon, seconds; each part padded to at least two digits. */
  function FormatTime(time: nat): (r: string)
    ensures |r| >= 5 && r[|r| - 3] == ':'
    ensures time < 6000 <==> |r| == 5
  {
    TwoDigits(time / 60) + ":" + TwoDigits(time % 60)
  }

  /**
   * `r` reads as `time` seconds: digits, a colon, two digits; the seconds are below 60 and
   * minutes times 60 plus seconds is `time`.
   */
  ghost predicate ReadsAs(r: string, time: nat) {
    |r| >= 5 && r[|r| - 3] == ':' && AllDigits(r[..|r| - 3]) && AllDigits(r[|r| - 2..])
    && DigitsValue(r[|r| - 2..]) < 60
    && DigitsValue(r[..|r| - 3]) * 60 + DigitsValue(r[|r| - 2..]) == time
  }

  /** The display reads back as the remaining time. */
  lemma FormatTimeReadsBack(time: nat)
    ensures ReadsAs(FormatTime(time), time)
  {
    var q, m := time / 60, time % 60;
    assert FormatTime(time) == TwoDigits(q) + ":" + TwoDigits(m);
    MinutesSeconds(q, m);
  }

  lemma MinutesSeconds(q: nat, m: nat)
    requires m < 60
    ensures ReadsAs(TwoDigits(q) + ":" + TwoDigits(m), q * 60 + m)
  {
    ColonParts(TwoDigits(q), TwoDigits(m));
  }

  /** The two sides of `a:b` with a two-character `b` can be cut back out. */
  lemma ColonParts(a: string, b: string)
    requires |b| == 2
    ensures var r := a + ":" + b;
      |r| == |a| + 3 && r[|r| - 3] == ':' && r[..|r| - 3] == a && r[|r| - 2..] == b
  {
    var r := a + ":" + b;
    assert r[..|a|] == a;
    assert r[|a| + 1..] == b;
  }

  /** Different remaining times are displayed differently. */
  lemma FormatTimeInjective(t1: nat, t2: nat)
    requires FormatTime(t1) == FormatTime(t2)
    ensures t1 == t2
  {
    FormatTimeReadsBack(t1);
    FormatTimeReadsBack(t2);
    ReadsAsUnique(FormatTime(t1), t1, t2);
  }

  lemma ReadsAsUnique(r: string, t1: nat, t2: nat)
    requires ReadsAs(r, t1) && ReadsAs(r, t2)
    ensures t1 == t2
  {
  }

  /** The "Current" statistic `cycles % 4 + 1`: the position within a block of four cycles. */
  function CurrentInBlock(cycles: nat): (r: nat)
    ensures 1 <= r <= 4
  {
    cycles % 4 + 1
  }

  /** The "Today" statistic `Math.floor(cycles / 4)`: completed blocks of four cycles. */
  function CompletedBlocks(cycles: nat): (r: nat)
    ensures 4 * r <= cycles < 4 * r + 4
  {
    cycles / 4
  }

  /** The two statistics together determine the cycle count. */
  lemma StatsDetermineCycles(cycles: nat)
    ensures 4 * CompletedBlocks(cycles) + CurrentInBlock(cycles) - 1 == cycles
  {
  }

  class Timer {
    var time: int
    var isActive: bool
    var mode: Mode
    var cycles: nat
    var showRocket: bool

    /** The remaining time is never negative and never above the longest custom duration. */
    ghost predicate Valid()
      reads this
    {
      0 <= time <= MaxCustomMinutes * 60
    }

    constructor ()
      ensures Valid()
      ensures time == WorkSeconds && !isActive && mode == Work && cycles == 0 && !showRocket
    {
      time := WorkSeconds;
      isActive := false;
      mode := Work;
      cycles := 0;
      showRocket := false;
    }

    /**
     * One run of the timer effect. While running with time left, one second elapses.
     * Running at zero ends the phase: a finished work phase counts a cycle and starts a
     * break (with the rocket shown), a finished break starts a work phase; either way the
     * timer stops. A paused timer does nothing.
     */
    method Step()
      requires Valid()
      modifies this
      ensures Valid()
      ensures cycles >= old(cycles)
      ensures old(isActive) && old(time) > 0 ==>
                time == old(time) - 1 && isActive && mode == old(mode) && cycles == old(cycles)
                && showRocket == old(showRocket)
      ensures old(isActive) && old(time) == 0 && old(mode) == Work ==>
                cycles == old(cycles) + 1 && mode == Break && time == BreakSeconds && !isActive && showRocket
      ensures old(isActive) && old(time) == 0 && old(mode) == Break ==>
                cycles == old(cycles) && mode == Work && time == WorkSeconds && !isActive
                && showRocket == old(showRocket)
      ensures !old(isActive) ==>
                time == old(time) && !isActive && mode == old(mode) && cycles == old(cycles)
                && showRocket == old(showRocket)
    {
      if isActive && time > 0 {
        time := time - 1;
      } else if isActive && time == 0 {
        if mode == Work {
          cycles := cycles + 1;
          mode := Break;
          time := BreakSeconds;
          showRocket := true;
        } else {
          mode := Work;
          time := WorkSeconds;
        }
        isActive := false;
      }
    }

    /** The rocket animation's two-second timeout. */
    method HideRocket()
      requires Valid()
      modifies this`showRocket
      ensures Valid() && !showRocket
    {
      showRocket := false;
    }

    /** `toggleTimer`: play or pause; nothing else changes. */
    method ToggleTimer()
      requires Valid()
      modifies this`isActive
      ensures Valid() && isActive == !old(isActive)
    {
      isActive := !isActive;
    }

    /** `resetTimer`: stop and restart the current phase; mode and cycles stay. */
    method ResetTimer()
      requires Valid()
      modifies this`isActive, this`time
      ensures Valid() && !isActive && time == PhaseLength(mode)
    {
      isActive := false;
      time := if mode == Work then WorkSeconds else BreakSeconds;
    }

    /**
     * `applyCustomTime`: `minutes` is the parsed input (`None` for `NaN`). A whole number of
     * minutes within 1..120 becomes the remaining time and stops the timer; anything else is ignored.
     */
    method ApplyCustomTime(minutes: Option<int>)
      requires Valid()
      modifies this`isActive, this`time
      ensures Valid()
      ensures minutes.Some? && MinCustomMinutes <= minutes.value <= MaxCustomMinutes ==>
                time == minutes.value * 60 && !isActive
      ensures !(minutes.Some? && MinCustomMinutes <= minutes.value <= MaxCustomMinutes) ==>
                time == old(time) && isActive == old(isActive)
    {
      if minutes.Some? && minutes.value >= MinCustomMinutes && minutes.value <= MaxCustomMinutes {
        time := minutes.value * 60;
        isActive := false;
      }
    }

    /** The rendered countdown, which reads back as the remaining seconds. */
    function Display(): (r: string)
      reads this
      requires Valid()
      ensures |r| >= 5 && (time < 6000 ==> |r| == 5)
      ensures ReadsAs(r, time)
    {
      FormatTimeReadsBack(time);
      FormatTime(time)
    }
  }
}
