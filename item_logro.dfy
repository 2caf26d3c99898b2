/**
 * components/usuario/ItemLogro.tsx: the palette of an achievement badge,
 * chosen from keywords in its title, and the icon of its type.
 */
module ItemLogro {
  import opened Wrappers

  /** `s.includes(sub)`: `sub` occurs in `s` at some position (case-sensitive). */
  predicate Includes(s: string, sub: string)
    decreases |s|
  {
    if |sub| > |s| then false
    else s[..|sub|] == sub || (s != [] && Includes(s[1..], sub))
  }

  /** `sub` occurs in `s` starting at position `i`. */
  predicate OccursAt(s: string, sub: string, i: nat)
  {
    i + |sub| <= |s| && s[i..i + |sub|] == sub
  }

  /** Includes holds exactly when `sub` occurs in `s` at some position. */
  lemma {:induction false} IncludesMeaning(s: string, sub: string)
    ensures Includes(s, sub) <==> exists i: nat :: OccursAt(s, sub, i)
    decreases |s|
  {
    if |sub| <= |s| && s != [] {
      IncludesMeaning(s[1..], sub);
      if s[..|sub|] == sub {
        assert OccursAt(s, sub, 0);
      }
      if Includes(s[1..], sub) {
        var i: nat :| OccursAt(s[1..], sub, i);
        assert OccursAt(s, sub, i + 1);
      }
      if exists i: nat :: OccursAt(s, sub, i) {
        var i: nat :| OccursAt(s, sub, i);
        if i == 0 {
          assert s[..|sub|] == sub;
        } else {
          assert OccursAt(s[1..], sub, i - 1);
        }
      }
    } else if |sub| > |s| {
      assert forall i: nat :: !OccursAt(s, sub, i);
    } else {
      assert OccursAt(s, sub, 0);
    }
  }

  datatype BadgeColors = BadgeColors(primary: string, secondary: string, text: string, glow: string)

  /** `getBadgeColors`: the first keyword of the if-chain the title includes selects the palette. */
  function GetBadgeColors(title: string): BadgeColors
  {
    if Includes(title, "Bronze") then BadgeColors("#CD7F32", "#8B5A2B", "#FFEBCD", "#CD7F3270")
    else if Includes(title, "Plata") then BadgeColors("#C0C0C0", "#A9A9A9", "#F5F5F5", "#C0C0C070")
    else if Includes(title, "Oro") then BadgeColors("#FFD700", "#DAA520", "#FFFACD", "#FFD70070")
    else if Includes(title, "Platino") then BadgeColors("#E5E4E2", "#C9C8C5", "#FFFFFF", "#E5E4E270")
    else if Includes(title, "Diamante") then BadgeColors("#B9F2FF", "#70D9E7", "#E0FFFF", "#B9F2FF70")
    else if Includes(title, "Legendario") then BadgeColors("#FF44CC", "#CC33AA", "#FFCCEE", "#FF44CC70")
    else DEFAULT_BADGE
  }

  /** The palette of a title that names no level. */
  const DEFAULT_BADGE: BadgeColors := BadgeColors("#6842FF", "#4123A0", "#E6E6FA", "#6842FF70")

  /** The levels in the order the title is checked against them, and the palette of each. */
  const LEVELS: seq<string> := ["Bronze", "Plata", "Oro", "Platino", "Diamante", "Legendario"]
  const LEVEL_PRIMARY: seq<string> := ["#CD7F32", "#C0C0C0", "#FFD700", "#E5E4E2", "#B9F2FF", "#FF44CC"]
  const LEVEL_SECONDARY: seq<string> := ["#8B5A2B", "#A9A9A9", "#DAA520", "#C9C8C5", "#70D9E7", "#CC33AA"]
  const LEVEL_TEXT: seq<string> := ["#FFEBCD", "#F5F5F5", "#FFFACD", "#FFFFFF", "#E0FFFF", "#FFCCEE"]

  /** The index of the first level, from `from` on, whose keyword the title includes. */
  function FirstLevel(title: string, from: nat): (r: Option<nat>)
    requires from <= |LEVELS|
    ensures r.Some? ==> from <= r.value < |LEVELS| && Includes(title, LEVELS[r.value])
    ensures r.Some? ==> forall j :: from <= j < r.value ==> !Includes(title, LEVELS[j])
    ensures r.None? ==> forall j :: from <= j < |LEVELS| ==> !Includes(title, LEVELS[j])
    decreases |LEVELS| - from
  {
    if from == |LEVELS| then None
    else if Includes(title, LEVELS[from]) then Some(from)
    else FirstLevel(title, from + 1)
  }

  /** The palette the level table gives a title. */
  function PaletteOf(title: string): BadgeColors
  {
    match FirstLevel(title, 0)
    case None => DEFAULT_BADGE
    case Some(i) => BadgeColors(LEVEL_PRIMARY[i], LEVEL_SECONDARY[i], LEVEL_TEXT[i], LEVEL_PRIMARY[i] + "70")
  }

  /**
   * getBadgeColors chooses by the first level keyword, in the order Bronze,
   * Plata, Oro, Platino, Diamante, Legendario, that the title includes; a
   * title with none of them gets the default purple palette.
   */
  lemma BadgeColorsFirstMatch(title: string)
    ensures GetBadgeColors(title) == PaletteOf(title)
  {
    var r := FirstLevel(title, 0);
    assert FirstLevel(title, 6) == None;
    assert r.None? ==> forall j :: 0 <= j < 6 ==> !Includes(title, LEVELS[j]);
  }

  /** In every branch the glow is the primary colour with alpha "70". */
  lemma GlowIsTranslucentPrimary(title: string)
    ensures GetBadgeColors(title).glow == GetBadgeColors(title).primary + "70"
  {
  }

  /** Keywords are matched with their case: a lower-case "bronze" names no level. */
  lemma KeywordsAreCaseSensitive()
    ensures GetBadgeColors("bronze") == DEFAULT_BADGE
    ensures GetBadgeColors("Bronze") != DEFAULT_BADGE
  {
    NotIncluded("bronze", "Bronze");
    NotIncluded("bronze", "Plata");
    NotIncluded("bronze", "Oro");
    NotIncluded("bronze", "Platino");
    NotIncluded("bronze", "Diamante");
    NotIncluded("bronze", "Legendario");
    assert Includes("Bronze", "Bronze") by {
      assert "Bronze"[..6] == "Bronze";
    }
  }

  /** A keyword whose first character does not occur in the text is not included in it. */
  lemma {:induction false} NotIncluded(s: string, sub: string)
    requires sub != [] && forall i :: 0 <= i < |s| ==> s[i] != sub[0]
    ensures !Includes(s, sub)
    decreases |s|
  {
    if |sub| <= |s| {
      assert s[..|sub|][0] == s[0];
      NotIncluded(s[1..], sub);
    }
  }

  /** `getLogroIcon`: fire, stopwatch, weight lifter, and a trophy for any other type. */
  function GetLogroIcon(type_: string): string
  {
    if type_ == "check" then "\U{1F525}"
    else if type_ == "time" then "\U{23F1}\U{FE0F}"
    else if type_ == "plus" then "\U{1F3CB}\U{FE0F}"
    else "\U{1F3C6}"
  }

  /**
   * "check" gets the fire, "time" the stopwatch and "plus" the weight lifter;
   * the trophy is reserved for every other type.
   */
  lemma LogroIconCases(type_: string)
    ensures GetLogroIcon("check") == "\U{1F525}"
    ensures GetLogroIcon("time") == "\U{23F1}\U{FE0F}"
    ensures GetLogroIcon("plus") == "\U{1F3CB}\U{FE0F}"
    ensures GetLogroIcon(type_) == "\U{1F3C6}" <==> type_ !in {"check", "time", "plus"}
  {
  }
}
