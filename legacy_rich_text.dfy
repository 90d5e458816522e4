/**
 * The `RichText` view of the first releases (RichText.swift at the package root): its stored
 * settings with their defaults, `init(html:)`, and the body that hands every setting to
 * `Webview` and shows the placeholder until the page has reported a height.
 */
module LegacyRichText {
  import opened Wrappers
  import opened Text
  import opened Views
  import LegacyEnums
  import LegacyColorSet
  import LegacyWebview

  /** The stored properties of the view (the `@State` height is held by `RichTextView` below). */
  datatype RichText = RichText(
    html: string,
    lineHeight: real,
    imageRadius: real,
    fontType: LegacyEnums.FontType,
    colorScheme: LegacyEnums.ColorScheme,
    colorImportant: bool,
    placeholder: Option<AnyView>,
    linkOpenType: LegacyEnums.LinkOpenType,
    linkColor: LegacyColorSet.ColorSet)

  /** `init(html:)`: the HTML as given, every other property at its declared default. */
  function Init(html: string): (r: RichText)
    ensures r.html == html
    ensures r.lineHeight == 170.0 && r.imageRadius == 0.0
    ensures r.fontType == LegacyEnums.System && r.colorScheme == LegacyEnums.Automatic
    ensures !r.colorImportant && r.placeholder == Option.None
    ensures r.linkOpenType == LegacyEnums.SFSafariView
    ensures r.linkColor == LegacyColorSet.ColorSet("#007AFF", "#0A84FF")
  {
    RichText(html, 170.0, 0.0, LegacyEnums.System, LegacyEnums.Automatic, false, Option.None,
             LegacyEnums.SFSafariView, LegacyColorSet.ColorSet("#007AFF", "#0A84FF"))
  }

  /** Two views made by `init(html:)` differ exactly when their HTML does; the default link colours already carry `#`. */
  lemma InitDeterminedByHtml(a: string, b: string)
    ensures Init(a) == Init(b) <==> a == b
    ensures StartsWith(Init(a).linkColor.light, "#") && StartsWith(Init(a).linkColor.dark, "#")
  {
    if Init(a) == Init(b) {
      assert Init(a).html == Init(b).html;
    }
  }

  /** The `Webview` the body builds: every stored property except the placeholder, passed unchanged. */
  function WebviewOf(v: RichText): (w: LegacyWebview.Webview)
    ensures w.html == v.html && w.lineHeight == v.lineHeight && w.imageRadius == v.imageRadius
    ensures w.fontType == v.fontType && w.colorScheme == v.colorScheme && w.colorImportant == v.colorImportant
    ensures w.linkOpenType == v.linkOpenType && w.linkColor == v.linkColor
  {
    LegacyWebview.Webview(v.html, v.lineHeight, v.imageRadius, v.fontType, v.colorScheme,
                          v.colorImportant, v.linkOpenType, v.linkColor)
  }

  /** Nothing is lost on the way to `Webview`: the view is recovered from it and its placeholder. */
  lemma WebviewOfLosesNothing(v: RichText, u: RichText)
    ensures WebviewOf(v) == WebviewOf(u) && v.placeholder == u.placeholder <==> v == u
  {
  }

  /** What `body` lays out: the web view, framed to the current height, with the placeholder on top or nothing. */
  datatype Body = Body(webview: LegacyWebview.Webview, frameHeight: real, overlay: Option<AnyView>)

  /** `body` at a given `dynamicHeight`. */
  function Render(v: RichText, dynamicHeight: real): (b: Body)
    ensures b.webview == WebviewOf(v) && b.frameHeight == dynamicHeight
    ensures b.overlay.Some? <==> dynamicHeight == 0.0 && v.placeholder.Some?
    ensures b.overlay.Some? ==> b.overlay == v.placeholder
  {
    Body(WebviewOf(v), dynamicHeight, if dynamicHeight == 0.0 then v.placeholder else Option.None)
  }

  /**
   * A `RichText` on screen: its stored properties and the `@State` height, which starts at
   * zero and is written by the web view through its binding.
   */
  class RichTextView {
    const view: RichText
    var dynamicHeight: real

    constructor(view: RichText)
      ensures this.view == view && dynamicHeight == 0.0
    {
      this.view := view;
      dynamicHeight := 0.0;
    }

    /** The placeholder is on screen exactly while the height is zero. */
    predicate ShowsPlaceholder()
      reads this
    {
      Render(view, dynamicHeight).overlay.Some?
    }

    /** A write through the `dynamicHeight` binding. */
    method SetHeight(height: real)
      modifies this
      ensures dynamicHeight == height
      ensures ShowsPlaceholder() <==> height == 0.0 && view.placeholder.Some?
    {
      dynamicHeight := height;
    }
  }

  /** A fresh view shows its placeholder, if it has one, and keeps showing it until a non-zero height arrives. */
  lemma PlaceholderUntilHeight(v: RichText, height: real)
    ensures Render(v, 0.0).overlay == v.placeholder
    ensures height != 0.0 ==> Render(v, height).overlay == Option.None
    ensures Render(v, height).webview == Render(v, 0.0).webview
  {
  }
}
