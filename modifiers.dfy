/**
 * The builder modifiers of `RichText` (Extensions/RichText+Extension.swift). Each one copies
 * the view and changes one stored property: the setters replace it, `customCSS` appends to it.
 * The view's property types are those of the web view in Models/Webview.swift, which this
 * revision of `RichText` drives.
 */
module Modifiers {
  import opened Wrappers
  import opened Views
  import RichTextEnums
  import ModelsWebview
  import LegacyColorSet

  /** The properties the modifiers read and write, and the HTML, which none of them touches. */
  datatype RichText = RichText(
    html: string,
    customCSS: string,
    lineHeight: real,
    imageRadius: real,
    fontType: RichTextEnums.FontType,
    colorScheme: ModelsWebview.ColorScheme,
    colorImportant: bool,
    placeholder: Option<AnyView>,
    linkOpenType: ModelsWebview.LinkOpenType,
    linkColor: LegacyColorSet.ColorSet)

  /** The properties a modifier can change. */
  datatype Field =
    | LineHeightField | ImageRadiusField | FontTypeField | ColorSchemeField | ColorImportantField
    | PlaceholderField | LinkOpenTypeField | LinkColorField | CustomCSSField

  /** `a` and `b` hold the same HTML and agree on every property other than `f`. */
  predicate AgreeExcept(a: RichText, b: RichText, f: Field) {
    && a.html == b.html
    && (f != CustomCSSField ==> a.customCSS == b.customCSS)
    && (f != LineHeightField ==> a.lineHeight == b.lineHeight)
    && (f != ImageRadiusField ==> a.imageRadius == b.imageRadius)
    && (f != FontTypeField ==> a.fontType == b.fontType)
    && (f != ColorSchemeField ==> a.colorScheme == b.colorScheme)
    && (f != ColorImportantField ==> a.colorImportant == b.colorImportant)
    && (f != PlaceholderField ==> a.placeholder == b.placeholder)
    && (f != LinkOpenTypeField ==> a.linkOpenType == b.linkOpenType)
    && (f != LinkColorField ==> a.linkColor == b.linkColor)
  }

  function LineHeight(v: RichText, lineHeight: real): (r: RichText)
    ensures r.lineHeight == lineHeight && AgreeExcept(r, v, LineHeightField)
  {
    v.(lineHeight := lineHeight)
  }

  function ImageRadius(v: RichText, imageRadius: real): (r: RichText)
    ensures r.imageRadius == imageRadius && AgreeExcept(r, v, ImageRadiusField)
  {
    v.(imageRadius := imageRadius)
  }

  function FontType(v: RichText, fontType: RichTextEnums.FontType): (r: RichText)
    ensures r.fontType == fontType && AgreeExcept(r, v, FontTypeField)
  {
    v.(fontType := fontType)
  }

  function ColorScheme(v: RichText, colorScheme: ModelsWebview.ColorScheme): (r: RichText)
    ensures r.colorScheme == colorScheme && AgreeExcept(r, v, ColorSchemeField)
  {
    v.(colorScheme := colorScheme)
  }

  function ColorImportant(v: RichText, colorImportant: bool): (r: RichText)
    ensures r.colorImportant == colorImportant && AgreeExcept(r, v, ColorImportantField)
  {
    v.(colorImportant := colorImportant)
  }

  /** `placeholder(content:)`: the built view, type-erased, becomes the placeholder; afterwards there always is one. */
  function Placeholder(v: RichText, content: AnyView): (r: RichText)
    ensures r.placeholder.Some? && r.placeholder.value == content && AgreeExcept(r, v, PlaceholderField)
  {
    v.(placeholder := Some(content))
  }

  function LinkOpenType(v: RichText, linkOpenType: ModelsWebview.LinkOpenType): (r: RichText)
    ensures r.linkOpenType == linkOpenType && AgreeExcept(r, v, LinkOpenTypeField)
  {
    v.(linkOpenType := linkOpenType)
  }

  function LinkColor(v: RichText, linkColor: LegacyColorSet.ColorSet): (r: RichText)
    ensures r.linkColor == linkColor && AgreeExcept(r, v, LinkColorField)
  {
    v.(linkColor := linkColor)
  }

  /** `customCSS(_:)`: appends to the style sheet gathered so far, it does not replace it. */
  function CustomCSS(v: RichText, customCSS: string): (r: RichText)
    ensures |r.customCSS| == |v.customCSS| + |customCSS|
    ensures r.customCSS[..|v.customCSS|] == v.customCSS && r.customCSS[|v.customCSS|..] == customCSS
    ensures AgreeExcept(r, v, CustomCSSField)
  {
    v.(customCSS := v.customCSS + customCSS)
  }

  /** One modifier call, with its argument. */
  datatype Modifier =
    | SetLineHeight(lineHeight: real)
    | SetImageRadius(imageRadius: real)
    | SetFontType(fontType: RichTextEnums.FontType)
    | SetColorScheme(colorScheme: ModelsWebview.ColorScheme)
    | SetColorImportant(colorImportant: bool)
    | SetPlaceholder(content: AnyView)
    | SetLinkOpenType(linkOpenType: ModelsWebview.LinkOpenType)
    | SetLinkColor(linkColor: LegacyColorSet.ColorSet)
    | AppendCustomCSS(css: string)

  /** The one property a modifier changes. */
  function FieldOf(m: Modifier): Field {
    match m
    case SetLineHeight(_) => LineHeightField
    case SetImageRadius(_) => ImageRadiusField
    case SetFontType(_) => FontTypeField
    case SetColorScheme(_) => ColorSchemeField
    case SetColorImportant(_) => ColorImportantField
    case SetPlaceholder(_) => PlaceholderField
    case SetLinkOpenType(_) => LinkOpenTypeField
    case SetLinkColor(_) => LinkColorField
    case AppendCustomCSS(_) => CustomCSSField
  }

  /** Calling the modifier `m` on `v`. */
  function Apply(v: RichText, m: Modifier): (r: RichText)
    ensures AgreeExcept(r, v, FieldOf(m))
  {
    match m
    case SetLineHeight(x) => LineHeight(v, x)
    case SetImageRadius(x) => ImageRadius(v, x)
    case SetFontType(x) => FontType(v, x)
    case SetColorScheme(x) => ColorScheme(v, x)
    case SetColorImportant(x) => ColorImportant(v, x)
    case SetPlaceholder(x) => Placeholder(v, x)
    case SetLinkOpenType(x) => LinkOpenType(v, x)
    case SetLinkColor(x) => LinkColor(v, x)
    case AppendCustomCSS(x) => CustomCSS(v, x)
  }

  /** A setter's result does not depend on the property it overwrites. */
  lemma SetterForgetsOldValue(v: RichText, u: RichText, m: Modifier)
    requires !m.AppendCustomCSS? && AgreeExcept(v, u, FieldOf(m))
    ensures Apply(v, m) == Apply(u, m)
  {
  }

  /** Of two setters of the same property the later one wins; in particular each setter is idempotent. */
  lemma LastWriteWins(v: RichText, first: Modifier, second: Modifier)
    requires FieldOf(first) == FieldOf(second) && !second.AppendCustomCSS?
    ensures Apply(Apply(v, first), second) == Apply(v, second)
    ensures Apply(Apply(v, second), second) == Apply(v, second)
  {
    SetterForgetsOldValue(Apply(v, first), v, second);
    SetterForgetsOldValue(Apply(v, second), v, second);
  }

  /** Modifiers of different properties can be called in either order. */
  lemma Commute(v: RichText, m1: Modifier, m2: Modifier)
    requires FieldOf(m1) != FieldOf(m2)
    ensures Apply(Apply(v, m1), m2) == Apply(Apply(v, m2), m1)
  {
  }

  /** `customCSS("")` changes nothing, and two calls amount to one call with the texts joined. */
  lemma CustomCSSAppends(v: RichText, a: string, b: string)
    ensures CustomCSS(v, "") == v
    ensures CustomCSS(CustomCSS(v, a), b) == CustomCSS(v, a + b)
  {
    assert v.customCSS + "" == v.customCSS;
    assert v.customCSS + a + b == v.customCSS + (a + b);
  }

  /** A chain of modifier calls, applied left to right. */
  function ApplyAll(v: RichText, ms: seq<Modifier>): RichText
    decreases |ms|
  {
    if |ms| == 0 then v else ApplyAll(Apply(v, ms[0]), ms[1..])
  }

  /** The custom CSS a chain appends, in call order. */
  function AppendedCSS(ms: seq<Modifier>): string
    decreases |ms|
  {
    if |ms| == 0 then ""
    else (if ms[0].AppendCustomCSS? then ms[0].css else "") + AppendedCSS(ms[1..])
  }

  /** After a chain the custom CSS is the original followed by every appended text, in order; the HTML never changes. */
  lemma {:induction false} ApplyAllCustomCSS(v: RichText, ms: seq<Modifier>)
    ensures ApplyAll(v, ms).customCSS == v.customCSS + AppendedCSS(ms)
    ensures ApplyAll(v, ms).html == v.html
    decreases |ms|
  {
    if |ms| > 0 {
      var u := Apply(v, ms[0]);
      var head := if ms[0].AppendCustomCSS? then ms[0].css else "";
      ApplyAllCustomCSS(u, ms[1..]);
      assert u.customCSS == v.customCSS + head;
      assert AppendedCSS(ms) == head + AppendedCSS(ms[1..]);
      assert v.customCSS + head + AppendedCSS(ms[1..]) == v.customCSS + (head + AppendedCSS(ms[1..]));
    }
  }

  /** After a chain ending in a line-height setter, that call's value is the line height, whatever came before. */
  lemma {:induction false} ApplyAllLastLineHeight(v: RichText, ms: seq<Modifier>, x: real)
    ensures ApplyAll(v, ms + [SetLineHeight(x)]).lineHeight == x
    decreases |ms|
  {
    if |ms| == 0 {
      assert ms + [SetLineHeight(x)] == [SetLineHeight(x)];
    } else {
      assert (ms + [SetLineHeight(x)])[1..] == ms[1..] + [SetLineHeight(x)];
      ApplyAllLastLineHeight(Apply(v, ms[0]), ms[1..], x);
    }
  }
}
