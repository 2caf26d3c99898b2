/**
 * The minutes-and-seconds text shared by the app's three duration formatters
 * (`calcularTiempo` in utils/utilsEntrenamientos.ts and in
 * components/dashboard/EntrenamientoCard.tsx, `formatTime` in
 * components/entrenar/ChipInfo.tsx): `${Math.floor(t / 60)}:${s < 10 ? `0${s}` : s}`
 * with `s = t % 60`.
 */
module Clock {
  import opened Wrappers
  import opened Decimal

  /**
   * JavaScript's `%` on integers: the remainder takes the sign of the dividend
   * (Dafny's own `%` never returns a negative value).
   */
  function JsRem(a: int, b: int): (r: int)
    requires b > 0
    ensures a >= 0 ==> 0 <= r < b && (a / b) * b + r == a
    ensures a < 0 ==> -b < r <= 0
    ensures (a - r) % b == 0
  {
    if a >= 0 then
      MultipleHasNoRemainder(a / b, b);
      assert a - a % b == (a / b) * b;
      a % b
    else
      MultipleHasNoRemainder(-((-a) / b), b);
      assert a + (-a) % b == (-((-a) / b)) * b;
      -((-a) % b)
  }

  /** A multiple of `b` leaves no remainder. */
  lemma MultipleHasNoRemainder(k: int, b: int)
    requires b > 0
    ensures (k * b) % b == 0
  {
    var d, m := (k * b) / b, (k * b) % b;
    assert (k - d) * b == m;
    NonZeroMultiple(k - d, b);
  }

  /** A non-zero multiple of `b` is at least `b` away from 0. */
  lemma NonZeroMultiple(e: int, b: int)
    requires b > 0
    ensures e >= 1 ==> e * b >= b
    ensures e <= -1 ==> e * b <= -b
  {
    if e >= 1 {
      assert e * b == (e - 1) * b + b;
    } else if e <= -1 {
      assert e * b == (e + 1) * b - b;
    }
  }

  /** The seconds field: a zero is prepended when the value is below 10. */
  function PaddedSeconds(s: int): string
  {
    if s < 10 then "0" + IntToString(s) else IntToString(s)
  }

  /** `${m}:${ss}` with m = Math.floor(t / 60) (Dafny's `/` floors for a positive divisor). */
  function MinutesSeconds(t: int): string
  {
    IntToString(t / 60) + ":" + PaddedSeconds(JsRem(t, 60))
  }

  /** For a seconds value in [0, 60) the field is exactly two digits denoting it. */
  lemma PaddedSecondsDigits(s: int)
    requires 0 <= s < 60
    ensures |PaddedSeconds(s)| == 2 && AllDigits(PaddedSeconds(s))
    ensures DigitsValue(PaddedSeconds(s)) == s
  {
    NatToStringShape(s);
    NatToStringRoundTrip(s);
    if s < 10 {
      LeadingZero(NatToString(s));
    }
  }

  /** Reads "<digits>:<two digits>" back into a number of seconds. */
  function DecodeMinutesSeconds(s: string): Option<int>
  {
    if |s| >= 4 && s[|s| - 3] == ':' && AllDigits(s[..|s| - 3]) && AllDigits(s[|s| - 2..])
    then Some(DigitsValue(s[..|s| - 3]) * 60 + DigitsValue(s[|s| - 2..]))
    else None
  }

  /**
   * For a non-negative duration the text splits into whole minutes and the
   * remaining seconds (m * 60 + s == t, s < 60, seconds always two digits),
   * so reading it back yields the duration.
   */
  lemma MinutesSecondsRoundTrip(t: int)
    requires t >= 0
    ensures DecodeMinutesSeconds(MinutesSeconds(t)) == Some(t)
  {
    var m, sec := t / 60, JsRem(t, 60);
    assert m * 60 + sec == t;
    PaddedSecondsDigits(sec);
    NatToStringRoundTrip(m);
    var text := MinutesSeconds(t);
    var head := NatToString(m);
    assert text == head + ":" + PaddedSeconds(sec);
    assert text[..|text| - 3] == head;
    assert text[|text| - 2..] == PaddedSeconds(sec);
  }

  /** A negative duration is rendered as JavaScript does: -5 becomes "-1:0-5". */
  lemma MinutesSecondsNegative()
    ensures MinutesSeconds(-5) == "-1:0-5"
  {
    assert JsRem(-5, 60) == -5;
    assert NatToString(5) == "5";
    assert NatToString(1) == "1";
  }
}
