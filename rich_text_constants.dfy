/**
 * The library's constants: default values, script-message handler names, the id of the
 * container element, the URL schemes the link policy matches, and the CSS and HTML format
 * templates. A template with positional `%@` (or `%d`) slots is modelled as a function
 * whose parameters are its slots, in the order `String(format:)` consumes its arguments;
 * an escaped `%%` appears as the `%` it produces.
 */
module RichTextConstants {
  import opened Text

  // Default values.
  const DefaultLineHeight: real := 170.0
  const DefaultImageRadius: real := 0.0
  const DefaultLightColor: string := "000000"
  const DefaultDarkColor: string := "F2F2F2"
  const DefaultLinkLightColor: string := "007AFF"
  const DefaultLinkDarkColor: string := "0A84FF"

  const IframeHeight: int := 250

  // Script-message handler names.
  const HeightNotificationHandler: string := "notifyCompletion"
  const MediaClickHandler: string := "mediaClick"

  // Id of the element that wraps the caller's HTML.
  const RichTextContainerID: string := "NuPlay_RichText"

  const SystemFontName: string := "-apple-system, BlinkMacSystemFont, 'Segoe UI', Roboto, sans-serif"

  // URL schemes.
  const MailtoScheme: string := "mailto"
  const TelScheme: string := "tel"
  const HttpScheme: string := "http"
  const HttpsScheme: string := "https"

  // Rules without slots.
  const LinkDecorationCSS: string := "A {text-decoration: none;} A:hover {text-decoration: underline;}"
  const BodyCSS: string := "body { margin: 0; padding: 0; -webkit-text-size-adjust: 100%; }"

  /** `imageCSS`: one slot, the corner radius. */
  function ImageCSS(borderRadius: string): string {
    "img{max-height: 100%; min-height: 100%; height:auto; max-width: 100%; width:auto;margin-bottom:5px; border-radius: "
    + borderRadius + "px; loading: lazy;}"
  }

  /** The selector list of `textCSS`, up to its first slot. */
  const TextSelectors: string :=
    "h1, h2, h3, h4, h5, h6, p, div, dl, ol, ul, pre, blockquote, figure, figcaption, details, summary, article, section, aside, header, footer, nav, main {text-align:"

  /** `textCSS`: five slots, in the order text-align, line-height, font-family, color, background-color. */
  function TextCSS(textAlign: string, lineHeight: string, fontFamily: string, color: string, backgroundColor: string): string {
    TextSelectors + textAlign + "; line-height: " + lineHeight + "%; font-family: " + fontFamily + "; color: " + color
    + "; background-color: " + backgroundColor + "; word-wrap: break-word; }"
  }

  /** `iframeCSS`: one `%d` slot, the decimal text of the frame height. */
  function IframeCSS(height: string): string {
    "iframe{width:100%; height:" + height + "px; border: none;}"
  }

  /** `linkCSS`: one slot, the link colour. */
  function LinkCSS(color: string): string {
    "a:link {color: " + color + "; transition: color 0.2s ease;}"
  }

  const HtmlHead: string :=
    "<HTML>\n<head>\n    <meta name='viewport' content='width=device-width, shrink-to-fit=YES, initial-scale=1.0, maximum-scale=1.0, minimum-scale=1.0, user-scalable=no'>\n</head>\n"

  // The fixed text between the slots of `htmlTemplate`.
  const HtmlDivOpen: string := "\n<div id=\""
  const HtmlDivClose: string := "\">"
  const HtmlScriptStart: string :=
    "</div>\n</BODY>\n<script>\n    function syncHeight() {\n      window.webkit.messageHandlers."
  const HtmlSyncHeightMiddle: string := ".postMessage(\n        document.getElementById('"
  const HtmlMediaCheck: string :=
    "').offsetHeight\n      );\n    }\n    \n    function handleMediaClick(element, type) {\n      if (window.webkit && window.webkit.messageHandlers && window.webkit.messageHandlers."
  const HtmlMediaPost: string := ") {\n        window.webkit.messageHandlers."
  const HtmlScriptEnd: string :=
    ".postMessage({\n          type: type,\n          src: element.src || element.getAttribute('src')\n        });\n      }\n    }\n    \n    window.onload = function () {\n      syncHeight();\n\n      // Handle height changes\n      var imgs = document.getElementsByTagName('img');\n      for (var i = 0; i < imgs.length; i++) {\n        imgs[i].onload = syncHeight;\n        // Add click handler for images\n        imgs[i].onclick = function() {\n          handleMediaClick(this, 'image');\n        };\n      }\n      \n      // Add click handler for videos\n      var videos = document.getElementsByTagName('video');\n      for (var i = 0; i < videos.length; i++) {\n        videos[i].onclick = function() {\n          handleMediaClick(this, 'video');\n        };\n      }\n    };\n</script>\n</HTML>"

  /**
   * `htmlTemplate`: seven slots, in the order stylesheet, container id, html, height handler,
   * container id, media handler, media handler.
   */
  function HtmlTemplate(stylesheet: string, containerId: string, html: string, heightHandler: string,
                        scriptContainerId: string, mediaHandler: string, postMediaHandler: string): string
  {
    HtmlHead + stylesheet + HtmlDivOpen + containerId + HtmlDivClose + html + HtmlScriptStart + heightHandler
    + HtmlSyncHeightMiddle + scriptContainerId + HtmlMediaCheck + mediaHandler + HtmlMediaPost + postMediaHandler
    + HtmlScriptEnd
  }

  const StyleOpen: string := "<style type='text/css'>\n"
  const BodyResetIndented: string := "    body {\n        margin: 0;\n        padding: 0;\n    }\n</style>\n<BODY>"
  const BodyReset: string := "body {\n    margin: 0;\n    padding: 0;\n}\n</style>\n<BODY>"
  const LightMediaOpen: string := "@media (prefers-color-scheme: light) {\n"
  const DarkMediaOpen: string := "@media (prefers-color-scheme: dark) {\n"

  /** `cssTemplate`: two slots (the rules, then the custom CSS), followed by the body reset. */
  function CssTemplate(rules: string, customCSS: string): string {
    StyleOpen + "    " + rules + "\n    " + customCSS + "\n" + BodyResetIndented
  }

  /** `mediaCSSTemplate`: the light rules, the dark rules, then the custom CSS. */
  function MediaCSSTemplate(lightRules: string, darkRules: string, customCSS: string): string {
    StyleOpen + LightMediaOpen + "    " + lightRules + "\n}\n" + DarkMediaOpen + "    " + darkRules + "\n}\n"
    + customCSS + "\n" + BodyReset
  }

  /** `htmlTemplate` filled the way its slots are named: with the library's own handler names and container id. */
  function HtmlDocument(stylesheet: string, html: string): string {
    HtmlTemplate(stylesheet, RichTextContainerID, html, HeightNotificationHandler,
                 RichTextContainerID, MediaClickHandler, MediaClickHandler)
  }

  /** The default constants and the names the web view relies on. */
  lemma ConstantValues()
    ensures DefaultLineHeight == 170.0 && DefaultImageRadius == 0.0
    ensures DefaultLightColor == "000000" && DefaultDarkColor == "F2F2F2"
    ensures HeightNotificationHandler != MediaClickHandler
    ensures MailtoScheme != TelScheme && HttpScheme != HttpsScheme
  {
  }

  /** The seven slots of the HTML template appear in the document in their positional order. */
  lemma HtmlTemplateSlotOrder(stylesheet: string, containerId: string, html: string, heightHandler: string,
                              scriptContainerId: string, mediaHandler: string, postMediaHandler: string)
    ensures InOrder(HtmlTemplate(stylesheet, containerId, html, heightHandler, scriptContainerId, mediaHandler, postMediaHandler),
                    [stylesheet, containerId, html, heightHandler, scriptContainerId, mediaHandler, postMediaHandler])
  {
    InOrderSeven(HtmlHead, stylesheet, HtmlDivOpen, containerId, HtmlDivClose, html, HtmlScriptStart, heightHandler,
                 HtmlSyncHeightMiddle, scriptContainerId, HtmlMediaCheck, mediaHandler, HtmlMediaPost, postMediaHandler);
    InOrderAppend(HtmlHead + stylesheet + HtmlDivOpen + containerId + HtmlDivClose + html + HtmlScriptStart + heightHandler
                  + HtmlSyncHeightMiddle + scriptContainerId + HtmlMediaCheck + mediaHandler + HtmlMediaPost + postMediaHandler,
                  [stylesheet, containerId, html, heightHandler, scriptContainerId, mediaHandler, postMediaHandler], HtmlScriptEnd);
  }

  /** The media template opens the light block before the dark one and puts the custom CSS after both. */
  lemma MediaTemplateOrder(lightRules: string, darkRules: string, customCSS: string)
    ensures InOrder(MediaCSSTemplate(lightRules, darkRules, customCSS),
                    [LightMediaOpen, lightRules, DarkMediaOpen, darkRules, customCSS])
  {
    InOrderFive(StyleOpen, LightMediaOpen, "    ", lightRules, "\n}\n", DarkMediaOpen, "    ", darkRules, "\n}\n", customCSS);
    var s5 := StyleOpen + LightMediaOpen + "    " + lightRules + "\n}\n" + DarkMediaOpen + "    " + darkRules + "\n}\n" + customCSS;
    InOrderAppend(s5, [LightMediaOpen, lightRules, DarkMediaOpen, darkRules, customCSS], "\n");
    InOrderAppend(s5 + "\n", [LightMediaOpen, lightRules, DarkMediaOpen, darkRules, customCSS], BodyReset);
  }

  /** `textCSS` consumes its five arguments in the order text-align, line-height, font-family, color, background-color. */
  lemma TextCSSSlotOrder(textAlign: string, lineHeight: string, fontFamily: string, color: string, backgroundColor: string)
    ensures InOrder(TextCSS(textAlign, lineHeight, fontFamily, color, backgroundColor),
                    [textAlign, lineHeight, fontFamily, color, backgroundColor])
  {
    var s0 := TextSelectors;
    InOrderFive(s0, textAlign, "; line-height: ", lineHeight, "%; font-family: ", fontFamily, "; color: ", color,
                "; background-color: ", backgroundColor);
    InOrderAppend(s0 + textAlign + "; line-height: " + lineHeight + "%; font-family: " + fontFamily + "; color: " + color
                  + "; background-color: " + backgroundColor,
                  [textAlign, lineHeight, fontFamily, color, backgroundColor], "; word-wrap: break-word; }");
  }

  /** `cssTemplate` puts the rules before the custom CSS, and the body reset after both. */
  lemma CssTemplateOrder(rules: string, customCSS: string)
    ensures InOrder(CssTemplate(rules, customCSS), [rules, customCSS, BodyResetIndented])
  {
    InOrderOne(StyleOpen + "    ", rules);
    var s1 := StyleOpen + "    " + rules;
    InOrderSnoc(s1, [rules], "\n    ", customCSS);
    var s2 := s1 + "\n    " + customCSS;
    InOrderSnoc(s2, [rules] + [customCSS], "\n", BodyResetIndented);
    assert [rules] + [customCSS] + [BodyResetIndented] == [rules, customCSS, BodyResetIndented];
  }
}
