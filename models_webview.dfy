/**
 * `Webview` as in Models/Webview.swift: the UIKit web view of the release whose view takes
 * its settings as separate properties. It has its own colour-scheme and link-open enums,
 * fixed text colours, and a link colour from the two-field `ColorSet`.
 */
module ModelsWebview {
  import opened Wrappers
  import opened Text
  import opened Environment
  import opened WebKit
  import opened TextAlignmentExtension
  import opened LinkEffects
  import RichTextEnums
  import RichTextConstants
  import Configurations
  import LegacyColorSet

  datatype ColorScheme = Light | Dark | Automatic

  datatype LinkOpenType =
    | SFSafariView(configuration: RichTextEnums.SafariConfiguration, isAnimated: bool)
    | Safari
    | None

  /** The stored properties of the view. */
  datatype Webview = Webview(
    html: string,
    customCSS: string,
    lineHeight: real,
    imageRadius: real,
    fontType: RichTextEnums.FontType,
    colorScheme: ColorScheme,
    colorImportant: bool,
    linkOpenType: LinkOpenType,
    linkColor: LegacyColorSet.ColorSet,
    alignment: TextAlignment)

  /** The text colour of a mode: #000000 or #F2F2F2, then `!important` when `colorImportant`. */
  function TextColorDeclaration(isLight: bool, colorImportant: bool): string {
    Configurations.FixedColorDeclaration(
      if isLight then RichTextConstants.DefaultLightColor else RichTextConstants.DefaultDarkColor, colorImportant)
  }

  /** The declarations `css(isLight:)` interpolates, in the order it writes them. */
  function Declarations(w: Webview, isLight: bool, env: Env): seq<string> {
    ["border-radius: " + env.describe(w.imageRadius) + "px",
     "text-align:" + HtmlDescription(w.alignment),
     "line-height: " + env.describe(w.lineHeight) + "%",
     "font-family: '" + RichTextEnums.FontName(w.fontType, env) + "' !important",
     TextColorDeclaration(isLight, w.colorImportant),
     "a:link {color: " + (if isLight then w.linkColor.light else w.linkColor.dark) + ";}"]
  }

  /**
   * `css(isLight:)`: the image, text, iframe and link rules. The text colour is #000000 in
   * light mode and #F2F2F2 in dark mode, followed by `!important` when `colorImportant`; the
   * link colour is the link colour set's string for the mode; the font family is always
   * `!important`.
   */
  function Css(w: Webview, isLight: bool, env: Env): (r: string)
    ensures InOrder(r, Declarations(w, isLight, env))
    ensures forall k | 0 <= k < 6 :: Contains(r, Declarations(w, isLight, env)[k])
    ensures Contains(Declarations(w, isLight, env)[4], "!important") <==> w.colorImportant
  {
    var ds := Declarations(w, isLight, env);
    var r := Configurations.ImageRulePrefix + ds[0] + Configurations.TextRuleSelectors + ds[1] + "; " + ds[2] + "; "
             + ds[3] + "; " + ds[4] + " }\niframe{width:100%; height:250px;}\n" + ds[5] + "\nA {text-decoration: none;}";
    Configurations.RuleOrder(r, Configurations.ImageRulePrefix, Configurations.TextRuleSelectors, ds, " }\niframe{width:100%; height:250px;}\n");
    Configurations.FixedColorImportance(
      if isLight then RichTextConstants.DefaultLightColor else RichTextConstants.DefaultDarkColor, w.colorImportant);
    r
  }

  const StyleOpenTag: string := "<style type='text/css'>"
  const StyleCloseBody: string := "</style><BODY>"
  const MediaStyleClose: string := "\n</style>\n<BODY>"

  /** One mode's rules and the custom CSS in a style element, followed by the opening of the body. */
  function SingleSheet(rules: string, customCSS: string): string {
    StyleOpenTag + rules + customCSS + StyleCloseBody
  }

  /** The light and the dark rules, each in its `@media` block, then the custom CSS. */
  function MediaSheet(light: string, dark: string, customCSS: string): string {
    RichTextConstants.StyleOpen + RichTextConstants.LightMediaOpen + "    " + light + "\n}\n"
    + RichTextConstants.DarkMediaOpen + "    " + dark + "\n}\n" + customCSS + MediaStyleClose
  }

  /**
   * `generateCSS()`: light and dark put that mode's rules and then the custom CSS in one
   * style element; automatic puts the light rules in a light `@media` block, then the dark
   * rules in a dark one, then the custom CSS.
   */
  function GenerateCSS(w: Webview, env: Env): (r: string)
    ensures w.colorScheme != Automatic ==>
      var rules := Css(w, w.colorScheme == Light, env);
      r == StyleOpenTag + rules + w.customCSS + StyleCloseBody && InOrder(r, [rules, w.customCSS])
    ensures w.colorScheme == Automatic ==>
      InOrder(r, [RichTextConstants.LightMediaOpen, Css(w, true, env), RichTextConstants.DarkMediaOpen, Css(w, false, env), w.customCSS])
      && StartsWith(r, RichTextConstants.StyleOpen) && EndsWith(r, MediaStyleClose)
  {
    if w.colorScheme == Automatic then
      var light, dark := Css(w, true, env), Css(w, false, env);
      MediaLayout(light, dark, w.customCSS);
      MediaSheet(light, dark, w.customCSS)
    else
      var rules := Css(w, w.colorScheme == Light, env);
      SingleLayout(rules, w.customCSS);
      SingleSheet(rules, w.customCSS)
  }

  lemma SingleLayout(rules: string, customCSS: string)
    ensures InOrder(SingleSheet(rules, customCSS), [rules, customCSS])
  {
    InOrderOne(StyleOpenTag, rules);
    InOrderSnoc(StyleOpenTag + rules, [rules], "", customCSS);
    assert StyleOpenTag + rules + "" + customCSS == StyleOpenTag + rules + customCSS;
    InOrderAppend(StyleOpenTag + rules + customCSS, [rules] + [customCSS], StyleCloseBody);
    assert [rules] + [customCSS] == [rules, customCSS];
  }

  lemma MediaLayout(light: string, dark: string, customCSS: string)
    ensures InOrder(MediaSheet(light, dark, customCSS),
                    [RichTextConstants.LightMediaOpen, light, RichTextConstants.DarkMediaOpen, dark, customCSS])
    ensures StartsWith(MediaSheet(light, dark, customCSS), RichTextConstants.StyleOpen)
    ensures EndsWith(MediaSheet(light, dark, customCSS), MediaStyleClose)
  {
    var body := RichTextConstants.LightMediaOpen + "    " + light + "\n}\n"
                + RichTextConstants.DarkMediaOpen + "    " + dark + "\n}\n" + customCSS;
    assert MediaSheet(light, dark, customCSS) == RichTextConstants.StyleOpen + body + MediaStyleClose;
    ThreeParts(RichTextConstants.StyleOpen, body, MediaStyleClose);
    InOrderFive(RichTextConstants.StyleOpen, RichTextConstants.LightMediaOpen, "    ", light, "\n}\n",
                RichTextConstants.DarkMediaOpen, "    ", dark, "\n}\n", customCSS);
    InOrderAppend(RichTextConstants.StyleOpen + RichTextConstants.LightMediaOpen + "    " + light + "\n}\n"
                  + RichTextConstants.DarkMediaOpen + "    " + dark + "\n}\n" + customCSS,
                  [RichTextConstants.LightMediaOpen, light, RichTextConstants.DarkMediaOpen, dark, customCSS], MediaStyleClose);
  }

  const PlainDivOpen: string := "\n<div>"
  const PageClose: string := "</div>\n</BODY>\n</HTML>"

  /** Everything before the caller's HTML for a given stylesheet. */
  function PageHeadFor(css: string): string {
    RichTextConstants.HtmlHead + css + PlainDivOpen
  }

  /**
   * `generateHTML()`: the document head, the stylesheet, then the caller's HTML in a plain
   * `<div>`, then the closing tags; the HTML sits between a head fixed by the stylesheet
   * and the fixed closing tags.
   */
  function GenerateHTML(w: Webview, env: Env): (r: string)
    ensures InOrder(r, [GenerateCSS(w, env), w.html])
    ensures r == PageHeadFor(GenerateCSS(w, env)) + w.html + PageClose
  {
    var css := GenerateCSS(w, env);
    PlainDocumentLayout(css, w.html);
    RichTextConstants.HtmlHead + css + PlainDivOpen + w.html + PageClose
  }

  lemma PlainDocumentLayout(css: string, html: string)
    ensures var r := RichTextConstants.HtmlHead + css + PlainDivOpen + html + PageClose;
            InOrder(r, [css, html]) && r == PageHeadFor(css) + html + PageClose
  {
    InOrderOne(RichTextConstants.HtmlHead, css);
    InOrderSnoc(RichTextConstants.HtmlHead + css, [css], PlainDivOpen, html);
    InOrderAppend(RichTextConstants.HtmlHead + css + PlainDivOpen + html, [css] + [html], PageClose);
    assert [css] + [html] == [css, html];
  }

  /** With the other properties fixed, the document determines the caller's HTML. */
  lemma GenerateHTMLInjective(w: Webview, html: string, env: Env)
    requires GenerateHTML(w, env) == GenerateHTML(w.(html := html), env)
    ensures w.html == html
  {
    var v := w.(html := html);
    var css := GenerateCSS(w, env);
    GenerateCSSIgnoresHtml(w, html, env);
    assert GenerateHTML(w, env) == PageHeadFor(css) + w.html + PageClose;
    assert GenerateHTML(v, env) == PageHeadFor(css) + html + PageClose;
    MiddleDetermined(PageHeadFor(css), w.html, html, PageClose);
  }

  /** The stylesheet does not depend on the caller's HTML. */
  lemma GenerateCSSIgnoresHtml(w: Webview, html: string, env: Env)
    ensures GenerateCSS(w.(html := html), env) == GenerateCSS(w, env)
  {
    var v := w.(html := html);
    assert Declarations(v, true, env) == Declarations(w, true, env);
    assert Declarations(v, false, env) == Declarations(w, false, env);
    assert Css(v, true, env) == Css(w, true, env);
    assert Css(v, false, env) == Css(w, false, env);
  }

  /**
   * `webView(_:decidePolicyFor:decisionHandler:)`: an activated link is cancelled, and its
   * URL, if any, is handed unchanged to the configured opener; every other navigation is
   * allowed.
   */
  function Decision(linkOpenType: LinkOpenType, action: NavigationAction): (NavigationPolicy, LinkEffect) {
    if action.navigationType == LinkActivated then
      (Cancel,
       if action.url.None? then NoEffect
       else match linkOpenType
         case SFSafariView(conf, animated) => PresentSafari(action.url.value, conf, animated)
         case Safari => SystemOpen(action.url.value)
         case None => LogUrl(action.url.value))
    else (Allow, NoEffect)
  }

  /** Exactly the activated links are cancelled, and only they trigger anything. */
  lemma CancelExactlyLinks(linkOpenType: LinkOpenType, action: NavigationAction)
    ensures Decision(linkOpenType, action).0 == Cancel <==> action.navigationType == LinkActivated
    ensures Decision(linkOpenType, action).0 == Allow <==> action.navigationType != LinkActivated
    ensures Decision(linkOpenType, action).1 != NoEffect ==> action.navigationType == LinkActivated && action.url.Some?
  {
  }

  /** The opener always receives the URL of the request as it is. */
  lemma DispatchNeverRewrites(linkOpenType: LinkOpenType, action: NavigationAction)
    ensures EffectUrl(Decision(linkOpenType, action).1).Some? ==> EffectUrl(Decision(linkOpenType, action).1) == action.url
  {
  }

  /** Which opener each link type picks for an activated link. */
  lemma LinkDispatch(linkOpenType: LinkOpenType, url: Url)
    ensures var e := Decision(linkOpenType, NavigationAction(LinkActivated, Some(url))).1;
      && (linkOpenType.SFSafariView? ==> e == PresentSafari(url, linkOpenType.configuration, linkOpenType.isAnimated))
      && (linkOpenType.Safari? ==> e == SystemOpen(url))
      && (linkOpenType.None? ==> e == LogUrl(url))
  {
  }
}
