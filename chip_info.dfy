/**
 * components/entrenar/ChipInfo.tsx: a chip whose label is rewritten according
 * to its `icon`, and the glyph it draws.
 */
module ChipInfo {
  import opened Wrappers
  import opened JsValues
  import opened Clock

  /** `formatTime`: the shared m:ss text followed by " min". */
  function FormatTime(totalTime: int): string
  {
    MinutesSeconds(totalTime) + " min"
  }

  /** Reads "<m>:<ss> min" back into seconds. */
  function ParseFormatTime(s: string): Option<int>
  {
    if |s| >= 4 && s[|s| - 4..] == " min" then DecodeMinutesSeconds(s[..|s| - 4]) else None
  }

  /** For a non-negative time the text has unbounded minutes and two seconds digits, and reads back. */
  lemma FormatTimeRoundTrip(totalTime: int)
    requires totalTime >= 0
    ensures ParseFormatTime(FormatTime(totalTime)) == Some(totalTime)
  {
    var text := FormatTime(totalTime);
    assert text[..|text| - 4] == MinutesSeconds(totalTime);
    MinutesSecondsRoundTrip(totalTime);
  }

  /** The rendered chip: the Ionicons glyph (None when none is drawn) and the text shown. */
  datatype ChipView = ChipView(glyph: Option<string>, shown: JsValue)

  /**
   * `Chip({ label, icon, totalTime })`. An absent prop is `None` (for
   * `label`, `Undefined`). With icon "Time" the label becomes
   * `formatTime(totalTime ?? 0)`; with "Play" it becomes `label + " rondas"`.
   */
  function Chip(labelProp: JsValue, icon: Option<string>, totalTime: Option<int>): ChipView
  {
    var shown :=
      if icon == Some("Time") then Str(FormatTime(if totalTime.Some? then totalTime.value else 0))
      else if icon == Some("Play") then Str(JsString(labelProp) + " rondas")
      else labelProp;
    var glyph :=
      if icon == Some("None") then None
      else Some(if icon == Some("Time") then "time-outline" else "play");
    ChipView(glyph, shown)
  }

  /**
   * "Time" ignores the given label and shows the formatted total (0 when
   * absent); "Play" appends " rondas"; any other icon, or none, keeps the
   * label unchanged.
   */
  lemma ChipLabel(labelProp: JsValue, icon: Option<string>, totalTime: Option<int>)
    ensures icon == Some("Time") ==>
      Chip(labelProp, icon, totalTime).shown == Str(FormatTime(if totalTime.None? then 0 else totalTime.value))
    ensures icon == Some("Time") ==> Chip(labelProp, icon, totalTime).shown == Chip(Undefined, icon, totalTime).shown
    ensures icon == Some("Play") ==> Chip(labelProp, icon, totalTime).shown == Str(JsString(labelProp) + " rondas")
    ensures icon != Some("Time") && icon != Some("Play") ==> Chip(labelProp, icon, totalTime).shown == labelProp
  {
  }

  /** A glyph is drawn unless the icon is exactly "None"; it is the clock for "Time" and "play" otherwise. */
  lemma ChipGlyph(labelProp: JsValue, icon: Option<string>, totalTime: Option<int>)
    ensures Chip(labelProp, icon, totalTime).glyph.None? <==> icon == Some("None")
    ensures Chip(labelProp, icon, totalTime).glyph == Some("time-outline") <==> icon == Some("Time")
    ensures icon != Some("None") && icon != Some("Time") ==> Chip(labelProp, icon, totalTime).glyph == Some("play")
  {
  }
}
