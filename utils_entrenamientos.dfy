/**
 * utils/utilsEntrenamientos.ts: `useTimer`, a counter of elapsed ticks capped
 * at a total, and `calcularTiempo`, the m:ss formatter.
 */
module UtilsEntrenamientos {
  import opened Wrappers
  import opened Clock

  /** The updater the interval passes to `setTiempoTranscurrido`: one more tick, capped at the total. */
  function TickStep(prev: int, tiempoTotal: int): int
  {
    if prev + 1 >= tiempoTotal then tiempoTotal else prev + 1
  }

  /**
   * The elapsed count after `n` interval callbacks starting from `prev`; the
   * callback that reaches the total also clears the interval, so later
   * callbacks never come.
   */
  function AfterTicks(prev: int, tiempoTotal: int, n: nat): int
    decreases n
  {
    if n == 0 then prev
    else if prev + 1 >= tiempoTotal then tiempoTotal
    else AfterTicks(prev + 1, tiempoTotal, n - 1)
  }

  /**
   * Counting up from below the total, n callbacks leave min(prev + n, total):
   * each adds exactly one until the total is reached, and the count never
   * passes it.
   */
  lemma {:induction false} AfterTicksCount(prev: int, tiempoTotal: int, n: nat)
    requires 0 <= prev < tiempoTotal
    ensures AfterTicks(prev, tiempoTotal, n) == if prev + n <= tiempoTotal then prev + n else tiempoTotal
    decreases n
  {
    if n > 0 && prev + 1 < tiempoTotal {
      AfterTicksCount(prev + 1, tiempoTotal, n - 1);
    }
  }

  /** From a reset, the timer shows min(n, total) after n callbacks. */
  lemma TicksFromReset(tiempoTotal: int, n: nat)
    requires tiempoTotal > 0
    ensures AfterTicks(0, tiempoTotal, n) == if n <= tiempoTotal then n else tiempoTotal
  {
    AfterTicksCount(0, tiempoTotal, n);
  }

  /** The callback that fires `tiempoAgotado` from a reset is exactly the `tiempoTotal`-th. */
  lemma {:induction false} FiringTick(prev: int, tiempoTotal: int, n: nat)
    requires 0 <= prev < tiempoTotal && n < tiempoTotal - prev
    ensures AfterTicks(prev, tiempoTotal, n) + 1 < tiempoTotal <==> n + 1 < tiempoTotal - prev
    ensures AfterTicks(prev, tiempoTotal, n) + 1 >= tiempoTotal <==> n == tiempoTotal - prev - 1
  {
    AfterTicksCount(prev, tiempoTotal, n);
  }

  class TickTimer {
    /** `tiempoTranscurrido`. */
    var tiempoTranscurrido: int
    /** Whether `timerRef.current` holds a live interval. */
    var intervalActive: bool
    /** The `tiempoTotal` captured by the live interval's callback. */
    var intervalTotal: int

    /** The first render: nothing elapsed and no interval yet. */
    constructor()
      ensures tiempoTranscurrido == 0 && !intervalActive
    {
      tiempoTranscurrido := 0;
      intervalActive := false;
      intervalTotal := 0;
    }

    /**
     * A run of the effect for the current `tiempoTotal` and `pausa` (after its
     * cleanup cleared the previous interval): while paused, or with no
     * positive total, no interval exists; otherwise a new one counts towards
     * `tiempoTotal`.
     */
    method RunEffect(tiempoTotal: int, pausa: bool)
      modifies this
      ensures intervalActive <==> !pausa && tiempoTotal > 0
      ensures intervalActive ==> intervalTotal == tiempoTotal
      ensures tiempoTranscurrido == old(tiempoTranscurrido)
    {
      if pausa || tiempoTotal <= 0 {
        intervalActive := false;
      } else {
        intervalActive := true;
        intervalTotal := tiempoTotal;
      }
    }

    /**
     * One interval callback (nothing happens without a live interval). The
     * count becomes TickStep of the previous one; the callback that reaches
     * the total clears the interval and calls `tiempoAgotado` (`fired`).
     */
    method Tick() returns (fired: bool)
      modifies this
      ensures !old(intervalActive) ==> !fired && tiempoTranscurrido == old(tiempoTranscurrido) && !intervalActive
      ensures old(intervalActive) ==>
                && tiempoTranscurrido == TickStep(old(tiempoTranscurrido), intervalTotal)
                && (fired <==> old(tiempoTranscurrido) + 1 >= intervalTotal)
                && intervalActive == !fired
                && tiempoTranscurrido <= intervalTotal
      ensures old(intervalActive) && !fired ==> tiempoTranscurrido == old(tiempoTranscurrido) + 1
      ensures fired ==> tiempoTranscurrido == intervalTotal
      ensures intervalTotal == old(intervalTotal)
    {
      fired := false;
      if intervalActive {
        var prev := tiempoTranscurrido;
        if prev + 1 >= intervalTotal {
          intervalActive := false;
          fired := true;
          tiempoTranscurrido := intervalTotal;
        } else {
          tiempoTranscurrido := prev + 1;
        }
      }
    }

    /** `resetTimer`: clears the interval and sets the count back to 0. */
    method ResetTimer()
      modifies this
      ensures tiempoTranscurrido == 0 && !intervalActive && intervalTotal == old(intervalTotal)
    {
      intervalActive := false;
      tiempoTranscurrido := 0;
    }
  }

  /** `calcularTiempo`: whole minutes, a colon, and the seconds padded to two digits. */
  function CalcularTiempo(tiempoTotal: int): string
  {
    MinutesSeconds(tiempoTotal)
  }

  /**
   * For a non-negative duration the text is the minutes, ':' and exactly two
   * seconds digits, with minutes * 60 + seconds == duration.
   */
  lemma CalcularTiempoRoundTrip(tiempoTotal: int)
    requires tiempoTotal >= 0
    ensures DecodeMinutesSeconds(CalcularTiempo(tiempoTotal)) == Some(tiempoTotal)
  {
    MinutesSecondsRoundTrip(tiempoTotal);
  }
}
