/**
 * The current option enums: the font choice, how links are opened, the colour preference
 * and the colour scheme.
 */
module RichTextEnums {
  import opened Environment
  import Wrappers

  /**
   * `FontType`. `Custom` stands for `.custom(UIFont)` and carries that font's `fontName`;
   * `Default` is the deprecated `.default` case.
   */
  datatype FontType = System | Monospaced | Italic | Custom(fontName: string) | CustomName(name: string) | Default

  /**
   * `FontType.name`. The monospaced and italic names come from the platform's font lookup.
   * A custom name is returned unquoted; `.system` and the deprecated `.default` fall into the
   * default branch.
   */
  function FontName(f: FontType, env: Env): (r: string)
    ensures f.CustomName? ==> r == f.name
    ensures f.System? || f.Default? ==> r == "-apple-system"
    ensures f.Monospaced? ==> r == env.monospacedFontName
    ensures f.Italic? ==> r == env.italicFontName
  {
    match f
    case Monospaced => env.monospacedFontName
    case Italic => env.italicFontName
    case Custom(n) => n
    case CustomName(n) => n
    case _ => "-apple-system"
  }

  /** The `SFSafariViewController.Configuration` object, reduced to its reader-mode flag. */
  datatype SafariConfiguration = SafariConfiguration(entersReaderIfAvailable: bool)

  /** A configuration made with `.init()`. */
  const DefaultSafariConfiguration := SafariConfiguration(false)

  /** `LinkOpenType`; `SFSafariView` exists only where UIKit can be imported. */
  datatype LinkOpenType =
    | SFSafariView(configuration: SafariConfiguration, isReaderActivated: Wrappers.Option<bool>, isAnimated: bool)
    | Safari
    | None

  /** `.SFSafariView()` with all default arguments. */
  const DefaultSFSafariView := SFSafariView(DefaultSafariConfiguration, Wrappers.None, true)

  datatype ColorPreference = All | OnlyLinks | NoColors

  datatype ColorScheme = Light | Dark | Auto

  /** Each case set has exactly its three pairwise distinct cases. */
  lemma CaseSets(s: ColorScheme, p: ColorPreference)
    ensures s == Light || s == Dark || s == Auto
    ensures Light != Dark && Light != Auto && Dark != Auto
    ensures p == All || p == OnlyLinks || p == NoColors
    ensures All != OnlyLinks && All != NoColors && OnlyLinks != NoColors
  {
  }
}
