/**
 * components/dashboard/EntrenamientoCard.tsx: the duration text of a workout
 * card and the class names chosen by the card's `tipo`.
 */
module EntrenamientoCard {
  import opened Wrappers
  import opened Clock

  /** This file's `calcularTiempo`: the shared m:ss text followed by " min.". */
  function CalcularTiempo(tiempoTotal: int): string
  {
    MinutesSeconds(tiempoTotal) + " min."
  }

  /** Reads "<m>:<ss> min." back into seconds. */
  function ParseCalcularTiempo(s: string): Option<int>
  {
    if |s| >= 5 && s[|s| - 5..] == " min." then DecodeMinutesSeconds(s[..|s| - 5]) else None
  }

  /** For a non-negative duration the card text splits into m * 60 + s with two seconds digits, and reads back. */
  lemma CalcularTiempoRoundTrip(tiempoTotal: int)
    requires tiempoTotal >= 0
    ensures ParseCalcularTiempo(CalcularTiempo(tiempoTotal)) == Some(tiempoTotal)
  {
    var text := CalcularTiempo(tiempoTotal);
    assert text[..|text| - 5] == MinutesSeconds(tiempoTotal);
    MinutesSecondsRoundTrip(tiempoTotal);
  }

  const CARD_BASE: string := "overflow-hidden rounded-3xl"
  const NOMBRE_DEFAULT: string := "text-white font-bold"

  /** The size classes of each known `tipo`. */
  const CARD_SIZES: map<string, string> := map[
    "Card Chica" := " w-[300px] h-[110px]",
    "Card Grande" := " w-[240px] h-[240px]",
    "Card Grid" := " w-[150px] h-[150px]"]

  /** The name classes that replace the default for the small and large cards. */
  const NOMBRE_STYLES: map<string, string> := map[
    "Card Chica" := "text-[16px]",
    "Card Grande" := "text-[20px]"]

  /** `cardContainer`: the base classes, to which the if-chain appends the size of the card. */
  function CardContainer(tipo: string): string
  {
    var cardContainer := CARD_BASE;
    if tipo == "Card Chica" then cardContainer + " w-[300px] h-[110px]"
    else if tipo == "Card Grande" then cardContainer + " w-[240px] h-[240px]"
    else if tipo == "Card Grid" then cardContainer + " w-[150px] h-[150px]"
    else cardContainer
  }

  /** `nombreStyle`: the default, reassigned for the small and large cards. */
  function NombreStyle(tipo: string): string
  {
    if tipo == "Card Chica" then "text-[16px]"
    else if tipo == "Card Grande" then "text-[20px]"
    else NOMBRE_DEFAULT
  }

  /**
   * The container is the base followed by exactly the size of the card's
   * `tipo` (nothing for another value); the name style is replaced outright
   * for the small and large cards and stays the default otherwise, the grid
   * card included.
   */
  lemma CardClasses(tipo: string)
    ensures CardContainer(tipo) == CARD_BASE + (if tipo in CARD_SIZES then CARD_SIZES[tipo] else "")
    ensures NombreStyle(tipo) == if tipo in NOMBRE_STYLES then NOMBRE_STYLES[tipo] else NOMBRE_DEFAULT
    ensures tipo in NOMBRE_STYLES ==> |NombreStyle(tipo)| < |NOMBRE_DEFAULT|
  {
  }

  /** What `{unEntrenamiento.tiempoTotal && <Text>…}` yields: the text, or the falsy number itself. */
  datatype TimeChild = TimeText(text: string) | FalsyNumber(n: int)

  function TimeChildOf(tiempoTotal: int): TimeChild
  {
    if tiempoTotal != 0 then TimeText(CalcularTiempo(tiempoTotal)) else FalsyNumber(tiempoTotal)
  }

  /** The duration text is rendered exactly when the total is non-zero; a zero total yields the number 0. */
  lemma TimeShownUnlessZero(tiempoTotal: int)
    ensures TimeChildOf(tiempoTotal).TimeText? <==> tiempoTotal != 0
    ensures TimeChildOf(tiempoTotal).TimeText? ==> TimeChildOf(tiempoTotal).text == CalcularTiempo(tiempoTotal)
    ensures tiempoTotal == 0 ==> TimeChildOf(tiempoTotal) == FalsyNumber(0)
  {
  }
}
