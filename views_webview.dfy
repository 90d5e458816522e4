/**
 * `RichTextWebView` (Views/Webview.swift): the web view that renders a configuration and
 * an HTML fragment, its document and stylesheet builders, and its coordinator, which takes
 * in height messages from the page and decides what happens to a tapped link.
 *
 * This revision reads a link-open setting with a `.custom(action)` case, so it uses its own
 * `LinkOpenType` below; the closure of that case is abstract and its invocation is reported
 * as an effect value.
 */
module RichTextWebView {
  import opened Wrappers
  import opened Text
  import opened Environment
  import opened WebKit
  import opened TextAlignmentExtension
  import opened Configurations
  import opened LinkEffects
  import RichTextEnums
  import RichTextConstants

  /** The link-open setting this revision switches on: the model's cases plus `.custom`. */
  datatype LinkOpenType =
    | SFSafariView(configuration: RichTextEnums.SafariConfiguration, isReaderActivated: Option<bool>, isAnimated: bool)
    | Safari
    | None
    | Custom

  /** The stored properties of the view: the environment's alignment, the HTML, the configuration and the width. */
  datatype View = View(alignment: TextAlignment, html: string, conf: Configuration<LinkOpenType>, width: real)

  /**
   * `generateCSS()`: a style element holding the rules of the configured scheme. Light and
   * dark use one rule set; auto wraps the light and the dark set in `@media` blocks. The
   * custom CSS comes after the generated rules in every case. The source writes out the text
   * of `cssTemplate` and `mediaCSSTemplate` inline; the model fills those templates.
   */
  function GenerateCSS(v: View, env: Env): (r: string)
    ensures v.conf.colorScheme != RichTextEnums.Auto ==>
      var rules := Css(v.conf, v.conf.colorScheme == RichTextEnums.Light, v.alignment, env);
      r == RichTextConstants.CssTemplate(rules, v.conf.customCSS) && InOrder(r, [rules, v.conf.customCSS])
    ensures v.conf.colorScheme == RichTextEnums.Auto ==>
      var light, dark := Css(v.conf, true, v.alignment, env), Css(v.conf, false, v.alignment, env);
      r == RichTextConstants.MediaCSSTemplate(light, dark, v.conf.customCSS) &&
      InOrder(r, [RichTextConstants.LightMediaOpen, light, RichTextConstants.DarkMediaOpen, dark, v.conf.customCSS])
  {
    if v.conf.colorScheme == RichTextEnums.Auto then
      var light, dark := Css(v.conf, true, v.alignment, env), Css(v.conf, false, v.alignment, env);
      RichTextConstants.MediaTemplateOrder(light, dark, v.conf.customCSS);
      RichTextConstants.MediaCSSTemplate(light, dark, v.conf.customCSS)
    else
      var rules := Css(v.conf, v.conf.colorScheme == RichTextEnums.Light, v.alignment, env);
      SingleSchemeLayout(rules, v.conf.customCSS);
      RichTextConstants.CssTemplate(rules, v.conf.customCSS)
  }

  /** The single-scheme stylesheet holds the rules, then the custom CSS. */
  lemma SingleSchemeLayout(rules: string, customCSS: string)
    ensures InOrder(RichTextConstants.CssTemplate(rules, customCSS), [rules, customCSS])
  {
    var open := RichTextConstants.StyleOpen + "    ";
    InOrderOne(open, rules);
    InOrderSnoc(open + rules, [rules], "\n    ", customCSS);
    assert [rules] + [customCSS] == [rules, customCSS];
    InOrderAppend(open + rules + "\n    " + customCSS, [rules, customCSS], "\n");
    InOrderAppend(open + rules + "\n    " + customCSS + "\n", [rules, customCSS], RichTextConstants.BodyResetIndented);
  }

  // The fixed text of `generateHTML` around its interpolations. The source writes the
  // container id and the handler name out; they are the library's constants.
  const DivOpen: string := "\n<div id=\""
  const ClosingTags: string := "</div>\n</BODY>"
  const ScriptStart: string := ClosingTags + "\n<script>\n    function syncHeight() {\n      window.webkit.messageHandlers."
  const ScriptMiddle: string := ".postMessage(\n        document.getElementById('"
  const ScriptEnd: string :=
    "').offsetHeight\n      );\n    }\n    window.onload = function () {\n      syncHeight();\n\n      var imgs = document.getElementsByTagName('img');\n      for (var i = 0; i < imgs.length; i++) {\n        imgs[i].onload = syncHeight;\n      }\n    };\n</script>\n</HTML>"

  /** Everything after the caller's HTML: the closing tags and the height script. */
  const PageTail: string :=
    ScriptStart + RichTextConstants.HeightNotificationHandler + ScriptMiddle + RichTextConstants.RichTextContainerID + ScriptEnd

  /** Everything before the caller's HTML for a given stylesheet. */
  function PageHeadFor(css: string): string {
    RichTextConstants.HtmlHead + css + DivOpen + RichTextConstants.RichTextContainerID + "\">"
  }

  /**
   * `generateHTML()`: the document shell holding the stylesheet, the caller's HTML inside the
   * `NuPlay_RichText` div, and a script that posts the div's height to `notifyCompletion`.
   * The HTML sits between a head fixed by the stylesheet and a fixed tail that opens with
   * the closing tags.
   */
  function GenerateHTML(v: View, env: Env): (r: string)
    ensures InOrder(r, [GenerateCSS(v, env), RichTextConstants.RichTextContainerID, v.html,
                        RichTextConstants.HeightNotificationHandler, RichTextConstants.RichTextContainerID])
    ensures r == PageHeadFor(GenerateCSS(v, env)) + v.html + PageTail
  {
    var css := GenerateCSS(v, env);
    var r := RichTextConstants.HtmlHead + css + DivOpen + RichTextConstants.RichTextContainerID + "\">" + v.html + ScriptStart
             + RichTextConstants.HeightNotificationHandler + ScriptMiddle + RichTextConstants.RichTextContainerID + ScriptEnd;
    DocumentLayout(css, v.html);
    r
  }

  lemma DocumentLayout(css: string, html: string)
    ensures var r := RichTextConstants.HtmlHead + css + DivOpen + RichTextConstants.RichTextContainerID + "\">" + html + ScriptStart
                     + RichTextConstants.HeightNotificationHandler + ScriptMiddle + RichTextConstants.RichTextContainerID + ScriptEnd;
            InOrder(r, [css, RichTextConstants.RichTextContainerID, html,
                        RichTextConstants.HeightNotificationHandler, RichTextConstants.RichTextContainerID]) &&
            r == PageHeadFor(css) + html + PageTail
  {
    var id, handler := RichTextConstants.RichTextContainerID, RichTextConstants.HeightNotificationHandler;
    var p := RichTextConstants.HtmlHead + css + DivOpen + id + "\">";
    InOrderOne(RichTextConstants.HtmlHead, css);
    InOrderSnoc(RichTextConstants.HtmlHead + css, [css], DivOpen, id);
    InOrderSnoc(RichTextConstants.HtmlHead + css + DivOpen + id, [css] + [id], "\">", html);
    InOrderSnoc(p + html, [css] + [id] + [html], ScriptStart, handler);
    InOrderSnoc(p + html + ScriptStart + handler, [css] + [id] + [html] + [handler], ScriptMiddle, id);
    InOrderAppend(p + html + ScriptStart + handler + ScriptMiddle + id, [css] + [id] + [html] + [handler] + [id], ScriptEnd);
    assert [css] + [id] + [html] + [handler] + [id] == [css, id, html, handler, id];
    Reassociate(p + html, ScriptStart, handler, ScriptMiddle, id, ScriptEnd);
  }

  /** The tail after the caller's HTML opens with the closing div and body tags. */
  lemma PageTailOpensWithClosingTags()
    ensures StartsWith(PageTail, ClosingTags)
  {
    var rest := "\n<script>\n    function syncHeight() {\n      window.webkit.messageHandlers."
                + RichTextConstants.HeightNotificationHandler + ScriptMiddle + RichTextConstants.RichTextContainerID + ScriptEnd;
    Reassociate(ClosingTags, "\n<script>\n    function syncHeight() {\n      window.webkit.messageHandlers.",
                RichTextConstants.HeightNotificationHandler, ScriptMiddle, RichTextConstants.RichTextContainerID, ScriptEnd);
    assert PageTail == ClosingTags + rest;
    assert (ClosingTags + rest)[..|ClosingTags|] == ClosingTags;
  }

  /**
   * Different fragments give different documents: with the view's other properties fixed,
   * the caller's HTML can be read back from the document.
   */
  lemma GenerateHTMLInjective(v: View, w: View, env: Env)
    requires v.alignment == w.alignment && v.conf == w.conf
    requires GenerateHTML(v, env) == GenerateHTML(w, env)
    ensures v.html == w.html
  {
    assert GenerateCSS(v, env) == GenerateCSS(w, env);
    MiddleDetermined(PageHeadFor(GenerateCSS(v, env)), v.html, w.html, PageTail);
  }

  datatype Platform = UIKit | AppKit

  /**
   * What the coordinator asks of its platform: which one it runs on, whether UIKit can open
   * a URL (`canOpenURL`), and how `URL(string:)` parses a string.
   */
  datatype Host = Host(platform: Platform, canOpenURL: Url -> bool, makeURL: string -> Option<Url>)

  /** The `SFSafariViewController.Configuration` after the optional reader flag has been applied to it. */
  function WithReader(c: RichTextEnums.SafariConfiguration, reader: Option<bool>): (r: RichTextEnums.SafariConfiguration)
    ensures reader.Some? ==> r.entersReaderIfAvailable == reader.value
    ensures reader.None? ==> r == c
  {
    if reader.Some? then c.(entersReaderIfAvailable := reader.value) else c
  }

  /**
   * The effect chosen for an http or https URL: present it in-app, open it via the system,
   * or (for `.none` and `.custom`) nothing. `SFSafariView` exists only under UIKit.
   */
  function WebLinkEffect(linkOpenType: LinkOpenType, url: Url): (e: LinkEffect)
    ensures linkOpenType.Safari? ==> e == SystemOpen(url)
    ensures linkOpenType.None? || linkOpenType.Custom? ==> e == NoEffect
    ensures linkOpenType.SFSafariView? ==>
      e == PresentSafari(url, WithReader(linkOpenType.configuration, linkOpenType.isReaderActivated), linkOpenType.isAnimated)
  {
    match linkOpenType
    case SFSafariView(conf, reader, animated) => PresentSafari(url, WithReader(conf, reader), animated)
    case Safari => SystemOpen(url)
    case _ => NoEffect
  }

  /** The scheme switch: mail and phone links go to the system, web links by link type, the rest by platform. */
  function SchemeEffect(linkOpenType: LinkOpenType, url: Url, host: Host): (e: LinkEffect)
    ensures url.scheme == Some(RichTextConstants.MailtoScheme) || url.scheme == Some(RichTextConstants.TelScheme)
            ==> e == SystemOpen(url)
    ensures url.scheme == Some(RichTextConstants.HttpScheme) || url.scheme == Some(RichTextConstants.HttpsScheme)
            ==> e == WebLinkEffect(linkOpenType, url)
    ensures url.scheme !in {Some("mailto"), Some("tel"), Some("http"), Some("https")} ==>
            e == (if host.platform.AppKit? || host.canOpenURL(url) then SystemOpen(url) else NoEffect)
  {
    if url.scheme == Some("mailto") || url.scheme == Some("tel") then SystemOpen(url)
    else if url.scheme == Some("http") || url.scheme == Some("https") then WebLinkEffect(linkOpenType, url)
    else if host.platform.UIKit? then (if host.canOpenURL(url) then SystemOpen(url) else NoEffect)
    else SystemOpen(url)
  }

  /** The URL dispatched for a link without a scheme: `https://` put in front of its text, if that parses. */
  function Rewritten(url: Url, host: Host): (r: Option<Url>)
    ensures url.scheme.Some? ==> r == Some(url)
    ensures url.scheme.None? ==> r == host.makeURL("https://" + url.absoluteString)
  {
    if url.scheme.None? then host.makeURL("https://" + url.absoluteString) else Some(url)
  }

  /** The decision `webView(_:decidePolicyFor:decisionHandler:)` reports, with the effect it triggers. */
  function Decision(linkOpenType: LinkOpenType, action: NavigationAction, host: Host): (NavigationPolicy, LinkEffect)
    requires host.platform.AppKit? ==> !linkOpenType.SFSafariView?
  {
    if action.navigationType != LinkActivated || action.url.None? then (Allow, NoEffect)
    else if linkOpenType.Custom? then (Cancel, CustomAction(action.url.value))
    else
      var target := Rewritten(action.url.value, host);
      if target.None? then (Cancel, NoEffect) else (Cancel, SchemeEffect(linkOpenType, target.value, host))
  }

  /** Navigations other than an activated link with a URL are allowed, and only they: they trigger nothing. */
  lemma AllowExactlyNonLinks(linkOpenType: LinkOpenType, action: NavigationAction, host: Host)
    requires host.platform.AppKit? ==> !linkOpenType.SFSafariView?
    ensures Decision(linkOpenType, action, host).0 == Allow <==> action.navigationType != LinkActivated || action.url.None?
    ensures Decision(linkOpenType, action, host).0 == Allow ==> Decision(linkOpenType, action, host).1 == NoEffect
  {
  }

  /** A custom link type runs only the custom action, on the URL as tapped. */
  lemma CustomRunsOnlyAction(action: NavigationAction, host: Host)
    requires action.navigationType == LinkActivated && action.url.Some?
    ensures Decision(Custom, action, host) == (Cancel, CustomAction(action.url.value))
  {
  }

  /**
   * For any other link type, the effect acts on the rewritten URL and no other; a link
   * without a scheme whose `https://` form does not parse is cancelled with no effect.
   */
  lemma DispatchUsesRewrittenUrl(linkOpenType: LinkOpenType, action: NavigationAction, host: Host)
    requires host.platform.AppKit? ==> !linkOpenType.SFSafariView?
    requires action.navigationType == LinkActivated && action.url.Some? && !linkOpenType.Custom?
    ensures Rewritten(action.url.value, host).None? ==> Decision(linkOpenType, action, host) == (Cancel, NoEffect)
    ensures EffectUrl(Decision(linkOpenType, action, host).1).Some? ==>
            EffectUrl(Decision(linkOpenType, action, host).1) == Rewritten(action.url.value, host)
    ensures !Decision(linkOpenType, action, host).1.CustomAction?
  {
  }

  /** Mail and phone links are opened by the system for every link type other than `.custom`. */
  lemma MailAndPhoneGoToSystem(linkOpenType: LinkOpenType, url: Url, host: Host)
    requires host.platform.AppKit? ==> !linkOpenType.SFSafariView?
    requires !linkOpenType.Custom? && (url.scheme == Some("mailto") || url.scheme == Some("tel"))
    ensures Decision(linkOpenType, NavigationAction(LinkActivated, Some(url)), host) == (Cancel, SystemOpen(url))
  {
  }

  /** Under UIKit a link of another scheme opens only if `canOpenURL` allows it. */
  lemma OtherSchemesNeedCanOpen(linkOpenType: LinkOpenType, url: Url, host: Host)
    requires host.platform.UIKit? && url.scheme.Some?
    requires url.scheme !in {Some("mailto"), Some("tel"), Some("http"), Some("https")} && !linkOpenType.Custom?
    ensures Decision(linkOpenType, NavigationAction(LinkActivated, Some(url)), host).1.SystemOpen? <==> host.canOpenURL(url)
  {
  }

  /**
   * `Coordinator`: the navigation and script-message delegate. It holds the view it serves
   * and the height binding that height messages write.
   */
  class Coordinator {
    var dynamicHeight: real
    const parent: View

    constructor(parent: View, dynamicHeight: real)
      ensures this.parent == parent && this.dynamicHeight == dynamicHeight
    {
      this.parent := parent;
      this.dynamicHeight := dynamicHeight;
    }

    /**
     * `userContentController(_:didReceive:)`: a `notifyCompletion` message whose body bridges
     * to `NSNumber` sets the height to that number; every other message changes nothing.
     */
    method UserContentController(message: ScriptMessage)
      modifies this
      ensures dynamicHeight == HeightAfter(old(dynamicHeight), message)
    {
      if message.name == "notifyCompletion" {
        var height := AsNSNumber(message.body);
        if height.Some? {
          dynamicHeight := height.value;
        }
      }
    }

    /**
     * `webView(_:decidePolicyFor:decisionHandler:)`: the policy passed to the decision
     * handler, and the effect triggered before it.
     */
    method DecidePolicyFor(action: NavigationAction, host: Host) returns (policy: NavigationPolicy, effect: LinkEffect)
      requires host.platform.AppKit? ==> !parent.conf.linkOpenType.SFSafariView?
      ensures (policy, effect) == Decision(parent.conf.linkOpenType, action, host)
    {
      if action.navigationType != LinkActivated || action.url.None? {
        return Allow, NoEffect;
      }
      var url := action.url.value;
      effect := NoEffect;
      if parent.conf.linkOpenType.Custom? {
        effect := CustomAction(url);
      } else {
        if url.scheme.None? {
          var httpsURL := host.makeURL("https://" + url.absoluteString);
          if httpsURL.None? {
            return Cancel, NoEffect;
          }
          url := httpsURL.value;
        }
        if url.scheme == Some("mailto") || url.scheme == Some("tel") {
          effect := SystemOpen(url);
        } else if url.scheme == Some("http") || url.scheme == Some("https") {
          match parent.conf.linkOpenType {
            case SFSafariView(conf, reader, animated) =>
              var presented := conf;
              if reader.Some? {
                presented := presented.(entersReaderIfAvailable := reader.value);
              }
              effect := PresentSafari(url, presented, animated);
            case Safari =>
              effect := SystemOpen(url);
            case _ =>
          }
        } else if host.platform.UIKit? {
          if host.canOpenURL(url) {
            effect := SystemOpen(url);
          }
        } else {
          effect := SystemOpen(url);
        }
      }
      policy := Cancel;
    }
  }

  /** The height after one message. */
  function HeightAfter(height: real, message: ScriptMessage): (r: real)
    ensures message.name == RichTextConstants.HeightNotificationHandler && message.body.JSNumber? ==> r == message.body.number
    ensures message.name != RichTextConstants.HeightNotificationHandler || AsNSNumber(message.body).None? ==> r == height
    ensures SetsHeight(message) ==> r == AsNSNumber(message.body).value
  {
    if message.name == "notifyCompletion" && AsNSNumber(message.body).Some? then AsNSNumber(message.body).value else height
  }

  /** The height after a run of messages, delivered in order. */
  function HeightAfterAll(height: real, messages: seq<ScriptMessage>): real
    decreases |messages|
  {
    if messages == [] then height else HeightAfterAll(HeightAfter(height, messages[0]), messages[1..])
  }

  /** A message that sets the height: a `notifyCompletion` message with a numeric body. */
  predicate SetsHeight(message: ScriptMessage) {
    message.name == RichTextConstants.HeightNotificationHandler && AsNSNumber(message.body).Some?
  }

  /** Messages none of which sets the height leave it where it was. */
  lemma {:induction false} HeightKeptWithoutSetters(height: real, messages: seq<ScriptMessage>)
    requires forall k | 0 <= k < |messages| :: !SetsHeight(messages[k])
    ensures HeightAfterAll(height, messages) == height
    decreases |messages|
  {
    if messages != [] {
      assert !SetsHeight(messages[0]);
      forall j | 0 <= j < |messages[1..]| ensures !SetsHeight(messages[1..][j]) {
        assert messages[1..][j] == messages[j + 1];
      }
      HeightKeptWithoutSetters(height, messages[1..]);
    }
  }

  /** Delivering two runs one after the other is delivering their concatenation. */
  lemma {:induction false} HeightAfterAppend(height: real, first: seq<ScriptMessage>, second: seq<ScriptMessage>)
    ensures HeightAfterAll(height, first + second) == HeightAfterAll(HeightAfterAll(height, first), second)
    decreases |first|
  {
    if first != [] {
      assert (first + second)[0] == first[0];
      assert (first + second)[1..] == first[1..] + second;
      HeightAfterAppend(HeightAfter(height, first[0]), first[1..], second);
    } else {
      assert first + second == second;
    }
  }

  /**
   * After a run of messages the height is the one carried by the last message that sets it:
   * later messages that do not set it leave it alone, and earlier ones are overwritten.
   */
  lemma LastSetterWins(height: real, before: seq<ScriptMessage>, message: ScriptMessage, after: seq<ScriptMessage>)
    requires SetsHeight(message)
    requires forall k | 0 <= k < |after| :: !SetsHeight(after[k])
    ensures HeightAfterAll(height, before + [message] + after) == AsNSNumber(message.body).value
  {
    HeightAfterAppend(height, before + [message], after);
    HeightAfterAppend(height, before, [message]);
    var h := HeightAfterAll(height, before);
    assert HeightAfterAll(h, [message]) == HeightAfterAll(HeightAfter(h, message), []);
    HeightKeptWithoutSetters(AsNSNumber(message.body).value, after);
  }

  /** Redelivering a message leaves the height where the first delivery put it. */
  lemma HeightAfterIdempotent(height: real, message: ScriptMessage)
    ensures HeightAfter(HeightAfter(height, message), message) == HeightAfter(height, message)
  {
  }

  /** A media-click message never changes the height: the two handler names differ. */
  lemma MediaClickKeepsHeight(height: real, body: MessageBody)
    ensures HeightAfter(height, ScriptMessage(RichTextConstants.MediaClickHandler, body)) == height
  {
    RichTextConstants.ConstantValues();
  }
}
