/**
 * The raw-value enums of the first releases (RichTextEnums.swift at the package root):
 * `colorScheme`, `fontType` and `linkOpenType`, each with its `rawValue` and the failable
 * `init(rawValue:)` that reads it back.
 */
module LegacyEnums {
  import opened Wrappers

  datatype ColorScheme = Light | Dark | Automatic

  /** `colorScheme.rawValue`. */
  function ColorSchemeRaw(c: ColorScheme): (r: string)
    ensures r in {"light", "dark", "automatic"}
  {
    match c
    case Light => "light"
    case Dark => "dark"
    case Automatic => "automatic"
  }

  /** `colorScheme(rawValue:)`: the case whose raw value is `s`, if any. */
  function ColorSchemeFromRaw(s: string): (r: Option<ColorScheme>)
    ensures r.Some? ==> ColorSchemeRaw(r.value) == s
    ensures r.None? ==> s !in {"light", "dark", "automatic"}
  {
    if s == "light" then Some(Light)
    else if s == "dark" then Some(Dark)
    else if s == "automatic" then Some(Automatic)
    else Option.None
  }

  /** Reading a raw value back gives its case; any other string gives nothing. */
  lemma ColorSchemeRoundTrip(c: ColorScheme, s: string)
    ensures ColorSchemeFromRaw(ColorSchemeRaw(c)) == Some(c)
    ensures ColorSchemeFromRaw(s).None? <==> (forall d: ColorScheme :: ColorSchemeRaw(d) != s)
  {
    if ColorSchemeFromRaw(s).None? {
      forall d: ColorScheme ensures ColorSchemeRaw(d) != s {
      }
    }
  }

  datatype FontType = System | Monospaced | Italic | Default

  /** `fontType.rawValue`. */
  function FontTypeRaw(f: FontType): (r: string)
    ensures r in {"system", "monospaced", "italic", "default"}
  {
    match f
    case System => "system"
    case Monospaced => "monospaced"
    case Italic => "italic"
    case Default => "default"
  }

  /** `fontType(rawValue:)`. */
  function FontTypeFromRaw(s: string): (r: Option<FontType>)
    ensures r.Some? ==> FontTypeRaw(r.value) == s
    ensures r.None? ==> s !in {"system", "monospaced", "italic", "default"}
  {
    if s == "system" then Some(System)
    else if s == "monospaced" then Some(Monospaced)
    else if s == "italic" then Some(Italic)
    else if s == "default" then Some(Default)
    else Option.None
  }

  lemma FontTypeRoundTrip(f: FontType, s: string)
    ensures FontTypeFromRaw(FontTypeRaw(f)) == Some(f)
    ensures FontTypeFromRaw(s).None? <==> (forall g: FontType :: FontTypeRaw(g) != s)
  {
    if FontTypeFromRaw(s).None? {
      forall g: FontType ensures FontTypeRaw(g) != s {
      }
    }
  }

  datatype LinkOpenType = SFSafariView | SFSafariViewWithReader | Safari | None

  /** `linkOpenType.rawValue`. */
  function LinkOpenTypeRaw(l: LinkOpenType): (r: string)
    ensures r in {"SFSafariView", "SFSafariViewWithReader", "Safari", "none"}
  {
    match l
    case SFSafariView => "SFSafariView"
    case SFSafariViewWithReader => "SFSafariViewWithReader"
    case Safari => "Safari"
    case None => "none"
  }

  /** `linkOpenType(rawValue:)`. */
  function LinkOpenTypeFromRaw(s: string): (r: Option<LinkOpenType>)
    ensures r.Some? ==> LinkOpenTypeRaw(r.value) == s
    ensures r.None? ==> s !in {"SFSafariView", "SFSafariViewWithReader", "Safari", "none"}
  {
    if s == "SFSafariView" then Some(SFSafariView)
    else if s == "SFSafariViewWithReader" then Some(SFSafariViewWithReader)
    else if s == "Safari" then Some(Safari)
    else if s == "none" then Some(LinkOpenType.None)
    else Option.None
  }

  lemma LinkOpenTypeRoundTrip(l: LinkOpenType, s: string)
    ensures LinkOpenTypeFromRaw(LinkOpenTypeRaw(l)) == Some(l)
    ensures LinkOpenTypeFromRaw(s).None? <==> (forall m: LinkOpenType :: LinkOpenTypeRaw(m) != s)
  {
    if LinkOpenTypeFromRaw(s).None? {
      forall m: LinkOpenType ensures LinkOpenTypeRaw(m) != s {
      }
    }
  }

  /** Within each enum the raw values are pairwise distinct. */
  lemma RawValuesInjective(a: ColorScheme, b: ColorScheme, f: FontType, g: FontType, l: LinkOpenType, m: LinkOpenType)
    ensures ColorSchemeRaw(a) == ColorSchemeRaw(b) ==> a == b
    ensures FontTypeRaw(f) == FontTypeRaw(g) ==> f == g
    ensures LinkOpenTypeRaw(l) == LinkOpenTypeRaw(m) ==> l == m
  {
    ColorSchemeRoundTrip(a, "");
    ColorSchemeRoundTrip(b, "");
    FontTypeRoundTrip(f, "");
    FontTypeRoundTrip(g, "");
    LinkOpenTypeRoundTrip(l, "");
    LinkOpenTypeRoundTrip(m, "");
  }
}
