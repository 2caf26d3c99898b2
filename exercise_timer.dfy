/**
 * hooks/useExerciseTimer.ts: a countdown with start, pause, resume and reset.
 * The hook's state (`timeRemainingMs`, `isRunning`) and refs
 * (`initialTimeRef`, `startTimeRef`, `pausedTimeRemainingRef`, and whether
 * `intervalRef` holds an interval) are the fields of a class. `Date.now()`
 * is the `now` parameter; each run of an effect and each interval callback
 * is a method call.
 */
module ExerciseTimer {
  import opened Wrappers

  /**
   * The remaining time the interval callback computes: the base minus the
   * time elapsed since the start, or 0 once that is no longer positive.
   */
  function TickRemaining(initialTime: int, startTime: int, now: int): int
  {
    var newRemainingTime := initialTime - (now - startTime);
    if newRemainingTime <= 0 then 0 else newRemainingTime
  }

  /**
   * A tick never leaves a negative remaining time, never more than the base
   * once the start time has passed, and reaches 0 exactly when the whole base
   * has elapsed.
   */
  lemma TickRemainingBounds(initialTime: int, startTime: int, now: int)
    ensures TickRemaining(initialTime, startTime, now) >= 0
    ensures now >= startTime && initialTime >= 0 ==> TickRemaining(initialTime, startTime, now) <= initialTime
    ensures TickRemaining(initialTime, startTime, now) == 0 <==> now - startTime >= initialTime
  {
  }

  /** A later tick never shows more remaining time than an earlier one of the same run. */
  lemma TickRemainingMonotone(initialTime: int, startTime: int, now1: int, now2: int)
    requires now1 <= now2
    ensures TickRemaining(initialTime, startTime, now2) <= TickRemaining(initialTime, startTime, now1)
  {
  }

  /**
   * After a resume at `t`, whose base is the remaining time `p` saved by the
   * pause, a tick `d` milliseconds later shows `p - d`, or 0: the pause
   * consumed no time.
   */
  lemma ResumeContinuesCountdown(p: int, t: int, d: int)
    ensures TickRemaining(p, t, t + d) == if p - d <= 0 then 0 else p - d
  {
  }

  /** `progress`: 0 when the base is not positive, otherwise 1 - remaining / base. */
  function ProgressOf(timeRemainingMs: int, initialTime: int): real
  {
    if initialTime > 0 then 1.0 - (timeRemainingMs as real) / (initialTime as real) else 0.0
  }

  /**
   * With a remaining time between 0 and a positive base, progress lies in
   * [0, 1]; it is 0 exactly when nothing has elapsed and 1 exactly when
   * nothing remains.
   */
  lemma ProgressBounds(timeRemainingMs: int, initialTime: int)
    requires 0 <= timeRemainingMs <= initialTime && initialTime > 0
    ensures 0.0 <= ProgressOf(timeRemainingMs, initialTime) <= 1.0
    ensures ProgressOf(timeRemainingMs, initialTime) == 0.0 <==> timeRemainingMs == initialTime
    ensures ProgressOf(timeRemainingMs, initialTime) == 1.0 <==> timeRemainingMs == 0
  {
    var q := (timeRemainingMs as real) / (initialTime as real);
    assert q * (initialTime as real) == timeRemainingMs as real;
    assert 0.0 <= q <= 1.0;
    assert q == 1.0 <==> timeRemainingMs == initialTime;
    assert q == 0.0 <==> timeRemainingMs == 0;
  }

  class Timer {
    var timeRemainingMs: int
    var isRunning: bool
    /** Whether `intervalRef.current` holds an interval. */
    var intervalActive: bool
    var initialTime: int
    var startTime: int
    var pausedTimeRemaining: int

    /** The hook's first render: remaining and base are `initialTimeMs`; running is `autoStart`. */
    constructor(initialTimeMs: int, autoStart: bool)
      ensures timeRemainingMs == initialTimeMs && initialTime == initialTimeMs
      ensures isRunning == autoStart && !intervalActive
      ensures startTime == 0 && pausedTimeRemaining == 0
      ensures initialTimeMs >= 0 ==> Consistent()
    {
      timeRemainingMs := initialTimeMs;
      isRunning := autoStart;
      intervalActive := false;
      initialTime := initialTimeMs;
      startTime := 0;
      pausedTimeRemaining := 0;
    }

    /** `progress` for the current state. */
    function Progress(): real
      reads this
    {
      ProgressOf(timeRemainingMs, initialTime)
    }

    /** The remaining time is non-negative and at most the base. */
    predicate Consistent()
      reads this
    {
      0 <= timeRemainingMs <= initialTime && pausedTimeRemaining >= 0
    }

    /** In a consistent state the `progress` the hook returns lies in [0, 1]. */
    lemma ProgressInRange()
      requires Consistent()
      ensures 0.0 <= Progress() <= 1.0
      ensures initialTime > 0 ==> (Progress() == 1.0 <==> timeRemainingMs == 0)
    {
      if initialTime > 0 {
        ProgressBounds(timeRemainingMs, initialTime);
      }
    }

    /**
     * `startTimer(newDurationMs)`: clears the interval; a given duration
     * becomes both base and remaining time; the start time is now and the
     * timer runs.
     */
    method StartTimer(newDurationMs: Option<int>, now: int)
      modifies this
      ensures !intervalActive && isRunning && startTime == now
      ensures newDurationMs.Some? ==> initialTime == newDurationMs.value && timeRemainingMs == newDurationMs.value
      ensures newDurationMs.None? ==> initialTime == old(initialTime) && timeRemainingMs == old(timeRemainingMs)
      ensures pausedTimeRemaining == old(pausedTimeRemaining)
      ensures old(Consistent()) && (newDurationMs.Some? ==> newDurationMs.value >= 0) ==> Consistent()
    {
      intervalActive := false;
      if newDurationMs.Some? {
        initialTime := newDurationMs.value;
        timeRemainingMs := newDurationMs.value;
      }
      startTime := now;
      isRunning := true;
    }

    /** `pauseTimer`: saves the remaining time and stops running; the remaining time itself is kept. */
    method PauseTimer()
      modifies this
      ensures pausedTimeRemaining == old(timeRemainingMs) && !isRunning
      ensures timeRemainingMs == old(timeRemainingMs) && initialTime == old(initialTime)
      ensures startTime == old(startTime) && intervalActive == old(intervalActive)
      ensures old(Consistent()) ==> Consistent()
    {
      pausedTimeRemaining := timeRemainingMs;
      isRunning := false;
    }

    /** `resumeTimer`: the saved remaining time becomes the base, counted from now. */
    method ResumeTimer(now: int)
      modifies this
      ensures initialTime == old(pausedTimeRemaining) && startTime == now && isRunning
      ensures timeRemainingMs == old(timeRemainingMs) && pausedTimeRemaining == old(pausedTimeRemaining)
      ensures intervalActive == old(intervalActive)
    {
      initialTime := pausedTimeRemaining;
      startTime := now;
      isRunning := true;
    }

    /**
     * `resetTimer(newDurationMs, shouldStart)`: clears the interval; base and
     * remaining become the given duration, or the previous base; the timer
     * runs exactly when `shouldStart`, and only then is the start time reset.
     */
    method ResetTimer(newDurationMs: Option<int>, shouldStart: bool, now: int)
      modifies this
      ensures !intervalActive && isRunning == shouldStart
      ensures initialTime == (if newDurationMs.Some? then newDurationMs.value else old(initialTime))
      ensures timeRemainingMs == initialTime
      ensures startTime == (if shouldStart then now else old(startTime))
      ensures pausedTimeRemaining == old(pausedTimeRemaining)
      ensures old(Consistent()) && (newDurationMs.Some? ==> newDurationMs.value >= 0) ==> Consistent()
    {
      intervalActive := false;
      var newTime := if newDurationMs.Some? then newDurationMs.value else initialTime;
      initialTime := newTime;
      timeRemainingMs := newTime;
      if shouldStart {
        startTime := now;
        isRunning := true;
      } else {
        isRunning := false;
      }
    }

    /**
     * A run of the main effect (after its cleanup cleared the previous
     * interval): an interval exists afterwards exactly when the timer runs.
     */
    method RunTimerEffect()
      modifies this
      ensures intervalActive == isRunning
      ensures timeRemainingMs == old(timeRemainingMs) && isRunning == old(isRunning)
      ensures initialTime == old(initialTime) && startTime == old(startTime)
      ensures pausedTimeRemaining == old(pausedTimeRemaining)
    {
      intervalActive := isRunning;
    }

    /** The unmount cleanup: the interval is cleared. */
    method Unmount()
      modifies this
      ensures !intervalActive
      ensures timeRemainingMs == old(timeRemainingMs) && isRunning == old(isRunning)
      ensures initialTime == old(initialTime) && startTime == old(startTime)
      ensures pausedTimeRemaining == old(pausedTimeRemaining)
    {
      intervalActive := false;
    }

    /**
     * One interval callback at time `now` (nothing happens without an
     * interval). The remaining time becomes the tick's value; when that is 0
     * the interval is cleared and `onTimeComplete` fires (`completed`), but
     * `isRunning` stays as it was.
     */
    method Tick(now: int) returns (completed: bool)
      modifies this
      ensures !old(intervalActive) ==> !completed && timeRemainingMs == old(timeRemainingMs) && !intervalActive
      ensures old(intervalActive) ==>
                && timeRemainingMs == TickRemaining(old(initialTime), old(startTime), now)
                && (completed <==> now - old(startTime) >= old(initialTime))
                && intervalActive == !completed
      ensures old(intervalActive) ==> timeRemainingMs >= 0
      ensures isRunning == old(isRunning) && initialTime == old(initialTime) && startTime == old(startTime)
      ensures pausedTimeRemaining == old(pausedTimeRemaining)
      ensures old(Consistent()) && now >= startTime ==> Consistent()
    {
      completed := false;
      if intervalActive {
        var timeElapsed := now - startTime;
        var newRemainingTime := initialTime - timeElapsed;
        if newRemainingTime <= 0 {
          timeRemainingMs := 0;
          intervalActive := false;
          completed := true;
        } else {
          timeRemainingMs := newRemainingTime;
        }
      }
    }

    /**
     * A run of the `shouldPause` effect: pause when asked to while running;
     * resume when no longer asked to, stopped, and with saved time left;
     * otherwise nothing changes.
     */
    method ShouldPauseEffect(shouldPause: bool, now: int)
      modifies this
      ensures shouldPause && old(isRunning) ==>
                !isRunning && pausedTimeRemaining == old(timeRemainingMs) && initialTime == old(initialTime)
                && startTime == old(startTime)
      ensures !shouldPause && !old(isRunning) && old(pausedTimeRemaining) > 0 ==>
                isRunning && initialTime == old(pausedTimeRemaining) && startTime == now
                && pausedTimeRemaining == old(pausedTimeRemaining)
      ensures !(shouldPause && old(isRunning)) && !(!shouldPause && !old(isRunning) && old(pausedTimeRemaining) > 0) ==>
                isRunning == old(isRunning) && initialTime == old(initialTime) && startTime == old(startTime)
                && pausedTimeRemaining == old(pausedTimeRemaining)
      ensures timeRemainingMs == old(timeRemainingMs) && intervalActive == old(intervalActive)
    {
      if shouldPause && isRunning {
        PauseTimer();
      } else if !shouldPause && !isRunning && pausedTimeRemaining > 0 {
        ResumeTimer(now);
      }
    }
  }
}
