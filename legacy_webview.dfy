/**
 * `Webview` as in the first releases (Webview.swift at the package root): the UIKit view
 * driven by the raw-value enums, its stylesheet for a colour scheme, its font lookup, the
 * document it loads, and its link decision.
 */
module LegacyWebview {
  import opened Wrappers
  import opened Text
  import opened Environment
  import opened WebKit
  import opened LinkEffects
  import RichTextEnums
  import RichTextConstants
  import Configurations
  import LegacyColorSet
  import LegacyEnums

  /** The stored properties of the view (the `WKWebView` it holds is not modelled). */
  datatype Webview = Webview(
    html: string,
    lineHeight: real,
    imageRadius: real,
    fontType: LegacyEnums.FontType,
    colorScheme: LegacyEnums.ColorScheme,
    colorImportant: bool,
    linkOpenType: LegacyEnums.LinkOpenType,
    linkColor: LegacyColorSet.ColorSet)

  /** `fontName(fontType:)`: the system font for `.system` and the default branch, the platform's names otherwise. */
  function FontName(f: LegacyEnums.FontType, env: Env): (r: string)
    ensures f == LegacyEnums.System || f == LegacyEnums.Default ==> r == "-apple-system"
    ensures f == LegacyEnums.Monospaced ==> r == env.monospacedFontName
    ensures f == LegacyEnums.Italic ==> r == env.italicFontName
  {
    match f
    case System => "-apple-system"
    case Monospaced => env.monospacedFontName
    case Italic => env.italicFontName
    case _ => "-apple-system"
  }

  /** The fixed alignment declaration: this release writes the three keywords as one literal. */
  const TextAlignDeclaration: string := "text-align:left|right|center"

  /** The declarations of one mode's rule block, in the order they are written. */
  function Declarations(w: Webview, isLight: bool, env: Env): seq<string> {
    ["border-radius: " + env.describe(w.imageRadius) + "px",
     TextAlignDeclaration,
     "line-height: " + env.describe(w.lineHeight) + "%",
     "font-family: '" + FontName(w.fontType, env) + "'",
     Configurations.FixedColorDeclaration(if isLight then "000000" else "F2F2F2", w.colorImportant),
     "a:link {color: " + (if isLight then w.linkColor.light else w.linkColor.dark) + ";}"]
  }

  const RulesImagePrefix: string := "    " + Configurations.ImageRulePrefix
  const RulesSelectors: string := ";}\nh1, h2, h3, h4, h5, h6, p, dl, ol, ul, pre, blockquote {"
  const RulesIframe: string := " }\n    iframe{width:100%; height:250px;}\n"

  /**
   * The rule block `css(colorScheme:)` writes out for one mode (the same text in all three
   * branches): text colour #000000 or #F2F2F2, then `!important` when `colorImportant`, the
   * link colour set's string for the mode, and a font family without `!important`.
   */
  function Rules(w: Webview, isLight: bool, env: Env): (r: string)
    ensures InOrder(r, Declarations(w, isLight, env))
    ensures forall k | 0 <= k < 6 :: Contains(r, Declarations(w, isLight, env)[k])
    ensures Contains(Declarations(w, isLight, env)[4], "!important") <==> w.colorImportant
  {
    var ds := Declarations(w, isLight, env);
    var r := RulesImagePrefix + ds[0] + RulesSelectors + ds[1] + "; " + ds[2] + "; " + ds[3] + "; " + ds[4]
             + RulesIframe + ds[5] + "\nA {text-decoration: none;}";
    Configurations.RuleOrder(r, RulesImagePrefix, RulesSelectors, ds, RulesIframe);
    Configurations.FixedColorImportance(if isLight then "000000" else "F2F2F2", w.colorImportant);
    r
  }

  const StyleClose: string := "\n</style>\n<BODY>"
  const MediaClose: string := "\n}\n</style>\n"

  /**
   * `css(colorScheme:)`: light and dark give a style element with that mode's rules;
   * automatic gives both, light first, each in its `@media` block. Every case ends by
   * opening the body.
   */
  function CssFor(w: Webview, colorScheme: LegacyEnums.ColorScheme, env: Env): (r: string)
    ensures colorScheme != LegacyEnums.Automatic ==>
      var rules := Rules(w, colorScheme == LegacyEnums.Light, env);
      StartsWith(r, RichTextConstants.StyleOpen + rules) && InOrder(r, [rules, "<BODY>"])
    ensures colorScheme == LegacyEnums.Automatic ==>
      InOrder(r, [RichTextConstants.LightMediaOpen, Rules(w, true, env), RichTextConstants.DarkMediaOpen, Rules(w, false, env), "<BODY>"])
    ensures Contains(r, TextAlignDeclaration)
  {
    if colorScheme == LegacyEnums.Automatic then
      var light, dark := Rules(w, true, env), Rules(w, false, env);
      InOrderContains(light, Declarations(w, true, env), 1);
      MediaBlocks(light, dark);
      MediaSheet(light, dark)
    else
      var rules := Rules(w, colorScheme == LegacyEnums.Light, env);
      InOrderContains(rules, Declarations(w, colorScheme == LegacyEnums.Light, env), 1);
      SingleBlock(rules);
      SingleSheet(rules)
  }

  /** One mode's rules in a style element, followed by the opening of the body. */
  function SingleSheet(rules: string): string {
    RichTextConstants.StyleOpen + rules + StyleClose
  }

  /** Both modes' rules, each in its `@media` block, followed by the opening of the body. */
  function MediaSheet(light: string, dark: string): string {
    RichTextConstants.StyleOpen + RichTextConstants.LightMediaOpen + light + "\n}\n"
    + RichTextConstants.DarkMediaOpen + dark + MediaClose + "<BODY>"
  }

  lemma SingleBlock(rules: string)
    ensures var r := SingleSheet(rules);
            StartsWith(r, RichTextConstants.StyleOpen + rules) && InOrder(r, [rules, "<BODY>"]) &&
            (Contains(rules, TextAlignDeclaration) ==> Contains(r, TextAlignDeclaration))
  {
    var r := SingleSheet(rules);
    assert r[..|RichTextConstants.StyleOpen + rules|] == RichTextConstants.StyleOpen + rules;
    InOrderOne(RichTextConstants.StyleOpen, rules);
    InOrderSnoc(RichTextConstants.StyleOpen + rules, [rules], "\n</style>\n", "<BODY>");
    assert [rules] + ["<BODY>"] == [rules, "<BODY>"];
    assert RichTextConstants.StyleOpen + rules + "\n</style>\n" + "<BODY>" == r;
    if Contains(rules, TextAlignDeclaration) {
      ContainsWithin(RichTextConstants.StyleOpen, rules, StyleClose, TextAlignDeclaration);
    }
  }

  lemma MediaBlocks(light: string, dark: string)
    ensures InOrder(MediaSheet(light, dark),
                    [RichTextConstants.LightMediaOpen, light, RichTextConstants.DarkMediaOpen, dark, "<BODY>"])
    ensures Contains(light, TextAlignDeclaration) ==> Contains(MediaSheet(light, dark), TextAlignDeclaration)
  {
    AdjacentPairs(RichTextConstants.StyleOpen, RichTextConstants.LightMediaOpen, light, "\n}\n",
                  RichTextConstants.DarkMediaOpen, dark, MediaClose, "<BODY>", TextAlignDeclaration);
  }

  /** Two pairs of adjacent pieces and a last piece, with gaps between the pairs, occur in order. */
  lemma AdjacentPairs(a: string, p0: string, p1: string, b: string, p2: string, p3: string, c: string, p4: string, x: string)
    ensures InOrder(a + p0 + p1 + b + p2 + p3 + c + p4, [p0, p1, p2, p3, p4])
    ensures Contains(p1, x) ==> Contains(a + p0 + p1 + b + p2 + p3 + c + p4, x)
  {
    InOrderFive(a, p0, "", p1, b, p2, "", p3, c, p4);
    assert a + p0 + "" + p1 == a + p0 + p1;
    assert a + p0 + p1 + b + p2 + "" + p3 == a + p0 + p1 + b + p2 + p3;
    if Contains(p1, x) {
      ContainsWithin(a + p0, p1, b + p2 + p3 + c + p4, x);
      assert a + p0 + p1 + (b + p2 + p3 + c + p4) == a + p0 + p1 + b + p2 + p3 + c + p4;
    }
  }

  const HtmlStart: string :=
    "<HTML>\n<head>\n    <meta name='viewport' content='width=device-width, shrink-to-fit=YES, initial-scale=1.0, maximum-scale=1.0, minimum-scale=1.0, user-scalable=no'>\n</head>"
  const HtmlEnd: string := "</BODY></HTML>"

  /**
   * The document `makeUIView` and `updateUIView` both load: the head, the stylesheet of the
   * view's colour scheme, the caller's HTML, then the closing tags.
   */
  function DocumentHtml(w: Webview, env: Env): (r: string)
    ensures r == HtmlStart + CssFor(w, w.colorScheme, env) + w.html + HtmlEnd
    ensures InOrder(r, [CssFor(w, w.colorScheme, env), w.html, HtmlEnd])
    ensures StartsWith(r, HtmlStart + CssFor(w, w.colorScheme, env))
  {
    var css := CssFor(w, w.colorScheme, env);
    DocumentLayout(css, w.html);
    HtmlStart + css + w.html + HtmlEnd
  }

  lemma DocumentLayout(css: string, html: string)
    ensures var r := HtmlStart + css + html + HtmlEnd;
            InOrder(r, [css, html, HtmlEnd]) && StartsWith(r, HtmlStart + css)
  {
    InOrderOne(HtmlStart, css);
    InOrderSnoc(HtmlStart + css, [css], "", html);
    assert HtmlStart + css + "" + html == HtmlStart + css + html;
    InOrderSnoc(HtmlStart + css + html, [css] + [html], "", HtmlEnd);
    assert HtmlStart + css + html + "" + HtmlEnd == HtmlStart + css + html + HtmlEnd;
    assert [css] + [html] + [HtmlEnd] == [css, html, HtmlEnd];
    ThreeParts(HtmlStart + css, html, HtmlEnd);
  }

  /** The stylesheet does not depend on the caller's HTML. */
  lemma CssIgnoresHtml(w: Webview, html: string, colorScheme: LegacyEnums.ColorScheme, env: Env)
    ensures CssFor(w.(html := html), colorScheme, env) == CssFor(w, colorScheme, env)
  {
    var v := w.(html := html);
    assert Declarations(v, true, env) == Declarations(w, true, env);
    assert Declarations(v, false, env) == Declarations(w, false, env);
    assert Rules(v, true, env) == Rules(w, true, env);
    assert Rules(v, false, env) == Rules(w, false, env);
  }

  /** With the other properties fixed, the loaded document determines the caller's HTML. */
  lemma DocumentHtmlInjective(w: Webview, html: string, env: Env)
    requires DocumentHtml(w, env) == DocumentHtml(w.(html := html), env)
    ensures w.html == html
  {
    var css := CssFor(w, w.colorScheme, env);
    CssIgnoresHtml(w, html, w.colorScheme, env);
    assert DocumentHtml(w, env) == HtmlStart + css + w.html + HtmlEnd;
    assert DocumentHtml(w.(html := html), env) == HtmlStart + css + html + HtmlEnd;
    MiddleDetermined(HtmlStart + css, w.html, html, HtmlEnd);
  }

  /**
   * `webView(_:decidePolicyFor:decisionHandler:)`: an activated link is cancelled and its
   * URL, if any, goes to the configured opener (the reader variant presents with reader mode
   * on, both Safari views animate); every other navigation is allowed.
   */
  function Decision(linkOpenType: LegacyEnums.LinkOpenType, action: NavigationAction): (NavigationPolicy, LinkEffect) {
    if action.navigationType == LinkActivated then
      (Cancel,
       if action.url.None? then NoEffect
       else match linkOpenType
         case SFSafariView => PresentSafari(action.url.value, RichTextEnums.DefaultSafariConfiguration, true)
         case SFSafariViewWithReader => PresentSafari(action.url.value, RichTextEnums.SafariConfiguration(true), true)
         case Safari => SystemOpen(action.url.value)
         case None => LogUrl(action.url.value))
    else (Allow, NoEffect)
  }

  /** Exactly the activated links are cancelled; the others are allowed and trigger nothing. */
  lemma CancelExactlyLinks(linkOpenType: LegacyEnums.LinkOpenType, action: NavigationAction)
    ensures Decision(linkOpenType, action).0 == Cancel <==> action.navigationType == LinkActivated
    ensures Decision(linkOpenType, action).0 == Allow <==> action.navigationType != LinkActivated
    ensures Decision(linkOpenType, action).1 != NoEffect ==> action.navigationType == LinkActivated && action.url.Some?
    ensures EffectUrl(Decision(linkOpenType, action).1).Some? ==> EffectUrl(Decision(linkOpenType, action).1) == action.url
  {
  }

  /** Which opener each of the four link types picks. */
  lemma LinkDispatch(linkOpenType: LegacyEnums.LinkOpenType, url: Url)
    ensures var e := Decision(linkOpenType, NavigationAction(LinkActivated, Some(url))).1;
      && (linkOpenType == LegacyEnums.SFSafariView ==>
            e == PresentSafari(url, RichTextEnums.DefaultSafariConfiguration, true) && !e.configuration.entersReaderIfAvailable)
      && (linkOpenType == LegacyEnums.SFSafariViewWithReader ==>
            e == PresentSafari(url, RichTextEnums.SafariConfiguration(true), true) && e.configuration.entersReaderIfAvailable)
      && (linkOpenType == LegacyEnums.Safari ==> e == SystemOpen(url))
      && (linkOpenType == LegacyEnums.None ==> e == LogUrl(url))
  {
  }
}
