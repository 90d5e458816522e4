/**
 * `ColorSet`: a colour for light mode and one for dark mode, as hex digits without `#`,
 * and whether CSS `!important` is to follow it.
 */
module ColorSets {
  import opened Wrappers
  import opened Text
  import RichTextConstants

  datatype ColorSet = ColorSet(light: string, dark: string, isImportant: bool)

  /** `init(light:dark:isImportant:)` with hex strings; `isImportant` defaults to false. */
  function FromHex(light: string, dark: string, isImportant: bool := false): (c: ColorSet)
    ensures c.light == light && c.dark == dark && c.isImportant == isImportant
  {
    ColorSet(light, dark, isImportant)
  }

  /**
   * `init(light:dark:isImportant:)` with platform colours, given here by their `hex` forms;
   * a colour without one falls back to the default light or dark text colour.
   */
  function FromPlatformColors(lightHex: Option<string>, darkHex: Option<string>, isImportant: bool): (c: ColorSet)
    ensures lightHex.Some? ==> c.light == lightHex.value
    ensures lightHex.None? ==> c.light == RichTextConstants.DefaultLightColor
    ensures darkHex.Some? ==> c.dark == darkHex.value
    ensures darkHex.None? ==> c.dark == RichTextConstants.DefaultDarkColor
    ensures c.isImportant == isImportant
  {
    ColorSet(
      if lightHex.Some? then lightHex.value else RichTextConstants.DefaultLightColor,
      if darkHex.Some? then darkHex.value else RichTextConstants.DefaultDarkColor,
      isImportant)
  }

  const ImportantSuffix: string := " !important"

  /** `value(_:)`: the CSS colour for the requested mode. */
  function Value(c: ColorSet, isLight: bool): (r: string)
    ensures StartsWith(r, "#")
  {
    "#" + (if isLight then c.light else c.dark) + (if c.isImportant then ImportantSuffix else "")
  }

  /** The two shapes of the value: with and without the `!important` suffix. */
  lemma ValueLayout(c: ColorSet)
    ensures c.isImportant ==> Value(c, true) == "#" + c.light + " !important" && Value(c, false) == "#" + c.dark + " !important"
    ensures !c.isImportant ==> Value(c, true) == "#" + c.light && Value(c, false) == "#" + c.dark
  {
  }

  /** The prefix and the suffix are shared, so the two modes agree exactly when the hex strings do. */
  lemma ValueModesAgree(c: ColorSet)
    ensures Value(c, true) == Value(c, false) <==> c.light == c.dark
  {
    var suffix := if c.isImportant then ImportantSuffix else "";
    var l, d := Value(c, true), Value(c, false);
    assert l == "#" + c.light + suffix && d == "#" + c.dark + suffix;
    if l == d {
      assert |c.light| == |c.dark|;
      assert l[1..1 + |c.light|] == c.light;
      assert d[1..1 + |c.dark|] == c.dark;
    }
  }
}
