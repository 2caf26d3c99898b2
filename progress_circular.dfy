/**
 * components/entrenar/ProgressCircular.tsx: the numeric part of the circular
 * countdown. The component receives the remaining time in seconds (the prop
 * is named `tiempoTranscurrido`), converts it to milliseconds, fires
 * `onTiempoAgotado` when it is used up and shows it as mm : ss cc. Numbers
 * are exact reals; the Skia drawing is not modelled.
 */
module ProgressCircular {
  import opened Decimal

  /** Math.trunc. */
  function Trunc(x: real): int
  {
    if x >= 0.0 then x.Floor else -((-x).Floor)
  }

  /** JavaScript's `%` on numbers: the remainder of the truncated quotient. */
  function JsRealRem(x: real, y: real): real
    requires y != 0.0
  {
    x - y * (Trunc(x / y) as real)
  }

  /** `s.padStart(2, "0")`: zeros are prepended until the text is two characters long. */
  function PadStart2(s: string): (r: string)
    ensures |r| == if |s| >= 2 then |s| else 2
    ensures r[|r| - |s|..] == s
    ensures forall i :: 0 <= i < |r| - |s| ==> r[i] == '0'
  {
    if |s| >= 2 then s else if |s| == 1 then "0" + s else "00"
  }

  /** What one render computes from the props. */
  datatype Readout = Readout(
    totalTimeMs: real,
    remainingTimeMs: real,
    elapsedTimeMs: real,
    tiempoAgotado: bool,      // whether onTiempoAgotado is invoked during this render
    minutes: int,
    seconds: int,
    centiseconds: int,
    formattedMinutes: string,
    formattedSeconds: string,
    formattedCentiseconds: string)

  /** One render of ProgressCircular, for the props tiempoMaximo and tiempoTranscurrido (seconds). */
  function Render(tiempoMaximo: real, tiempoTranscurrido: real): (r: Readout)
    ensures r.remainingTimeMs == tiempoTranscurrido * 1000.0
    ensures r.elapsedTimeMs + r.remainingTimeMs == tiempoMaximo * 1000.0
    ensures r.tiempoAgotado <==> r.remainingTimeMs <= 0.0
    ensures r.tiempoAgotado <==> r.elapsedTimeMs >= r.totalTimeMs
    ensures 0.0 <= tiempoTranscurrido <= tiempoMaximo ==> 0.0 <= r.elapsedTimeMs <= r.totalTimeMs
    ensures tiempoTranscurrido >= 0.0 ==> r.minutes >= 0
  {
    var totalTimeMs := tiempoMaximo * 1000.0;
    var remainingTimeMs := tiempoTranscurrido * 1000.0;
    var elapsedTimeMs := totalTimeMs - remainingTimeMs;
    var minutes := (remainingTimeMs / 60000.0).Floor;
    var seconds := (JsRealRem(remainingTimeMs, 60000.0) / 1000.0).Floor;
    var centiseconds := (JsRealRem(remainingTimeMs, 1000.0) / 10.0).Floor;
    Readout(totalTimeMs, remainingTimeMs, elapsedTimeMs, remainingTimeMs <= 0.0,
            minutes, seconds, centiseconds,
            PadStart2(IntToString(minutes)), PadStart2(IntToString(seconds)), PadStart2(IntToString(centiseconds)))
  }

  /** The floor of x / 1000 is k when x lies in [1000 k, 1000 (k + 1)). */
  lemma FloorOfThousandths(x: real, k: int)
    requires (k as real) * 1000.0 <= x < (k as real + 1.0) * 1000.0
    ensures (x / 1000.0).Floor == k
  {
    assert (k as real) <= x / 1000.0 < k as real + 1.0;
  }

  /**
   * For a non-negative remaining time the three fields split it: seconds
   * below 60, centiseconds below 100, and
   * minutes * 60000 + seconds * 1000 + centiseconds * 10 <= remaining < that + 10.
   */
  lemma SplitRemaining(tiempoMaximo: real, tiempoTranscurrido: real)
    requires tiempoTranscurrido >= 0.0
    ensures var r := Render(tiempoMaximo, tiempoTranscurrido);
      && r.minutes >= 0 && 0 <= r.seconds < 60 && 0 <= r.centiseconds < 100
      && var whole := (r.minutes * 60000 + r.seconds * 1000 + r.centiseconds * 10) as real;
         whole <= r.remainingTimeMs < whole + 10.0
  {
    var x := tiempoTranscurrido * 1000.0;
    var m := (x / 60000.0).Floor;
    var r1 := JsRealRem(x, 60000.0);
    assert Trunc(x / 60000.0) == m;
    assert 0.0 <= r1 < 60000.0;
    var sec := (r1 / 1000.0).Floor;
    assert 0 <= sec < 60;
    var f := r1 - (sec as real) * 1000.0;
    assert 0.0 <= f < 1000.0;
    FloorOfThousandths(x, 60 * m + sec);
    var r2 := JsRealRem(x, 1000.0);
    assert r2 == f;
    var cs := (r2 / 10.0).Floor;
    assert 0 <= cs < 100;
  }

  /** A padded field of a value in [0, 100) is its two-digit decimal text. */
  lemma PaddedField(n: int)
    requires 0 <= n
    ensures var s := PadStart2(IntToString(n));
      |s| >= 2 && AllDigits(s) && DigitsValue(s) == n
  {
    NatToStringShape(n);
    NatToStringRoundTrip(n);
    if n < 10 {
      LeadingZero(NatToString(n));
    }
  }

  /**
   * For a non-negative remaining time each field shows at least two digits,
   * and reading the three fields back gives minutes, seconds and centiseconds.
   */
  lemma FormattedFieldsRoundTrip(tiempoMaximo: real, tiempoTranscurrido: real)
    requires tiempoTranscurrido >= 0.0
    ensures var r := Render(tiempoMaximo, tiempoTranscurrido);
      && |r.formattedMinutes| >= 2 && AllDigits(r.formattedMinutes) && DigitsValue(r.formattedMinutes) == r.minutes
      && |r.formattedSeconds| == 2 && AllDigits(r.formattedSeconds) && DigitsValue(r.formattedSeconds) == r.seconds
      && |r.formattedCentiseconds| == 2 && AllDigits(r.formattedCentiseconds)
      && DigitsValue(r.formattedCentiseconds) == r.centiseconds
  {
    var r := Render(tiempoMaximo, tiempoTranscurrido);
    SplitRemaining(tiempoMaximo, tiempoTranscurrido);
    PaddedField(r.minutes);
    PaddedField(r.seconds);
    PaddedField(r.centiseconds);
    NatToStringShape(r.seconds);
    NatToStringShape(r.centiseconds);
  }
}
