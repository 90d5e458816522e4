# RichText in Dafny

A model of NuPlay/RichText, a Swift package that renders an HTML fragment inside a
`WKWebView`. The package wraps the fragment in a document shell that holds a stylesheet
built from the view's settings (font, line height, colours, image radius, alignment, colour
scheme, custom CSS). It then grows the view to the height the page reports, and decides
what happens when a link is tapped.

The package keeps three revisions of its web view side by side, and the model keeps all
three, one module each:

- `RichTextWebView` (Sources/RichText/Views/Webview.swift) is the current view, driven by
  `Configuration`. It has a coordinator class that takes in height messages and decides a
  link's fate, with URL rewriting and a scheme switch.
- `ModelsWebview` (Sources/RichText/Models/Webview.swift) takes its settings as separate
  properties.
- `LegacyWebview` (Sources/RichText/Webview.swift) is the first release, driven by the
  raw-value enums of `LegacyEnums`.

Around them are:

- the settings record and its stylesheet (`Configurations`);
- the colour pair (`ColorSets`);
- the enums (`RichTextEnums`, `LegacyEnums`);
- the alignment keywords (`TextAlignmentExtension`);
- the constants and format templates (`RichTextConstants`);
- the first release's view, with its defaults and placeholder rule (`LegacyRichText`);
- the copy-and-change builder modifiers (`Modifiers`);
- the background-colour modifier with its regular-expression rewrite (`BackgroundModifier`).

Platform facts the library only passes through are parameters, not assumptions:

- `Environment.Env` carries Swift's text form of a `CGFloat` and the system's monospaced
  and italic font names.
- `RichTextWebView.Host` carries the platform, `canOpenURL` and `URL(string:)`.
- Opening a URL, presenting Safari, calling the custom closure and printing are returned as
  `LinkEffects.LinkEffect` values rather than performed.

`Text` holds the string vocabulary the contracts use:

- `StartsWith`;
- `Contains` (Foundation's `contains`);
- `InOrder(s, pieces)`, which says that the pieces occur in `s` one after another, without
  overlapping.

Where the code and the library's own description differ, the model follows the code:

- In Sources/RichText/Webview.swift the alignment is the fixed text `left|right|center`.
- In the scheme switch of Views/Webview.swift, `.none` and `.custom` do nothing for web links.
- The `LinkOpenType` that Views/Webview.swift switches on has a `.custom(action)` case that
  the enum in Models/RichTextEnums.swift does not declare. So `RichTextWebView` declares its
  own enum with that case, and `Configuration` is generic in its link type.
- Models/Webview.swift uses enum cases (`ColorScheme.automatic`,
  `SFSafariView(conf, isAnimated)`) and a two-field `ColorSet` from other revisions, so
  `ModelsWebview` declares those shapes itself. It uses `LegacyColorSet` for the colour pair
  of Sources/RichText/ColorSet.swift.

## Model

| member | source | states |
|---|---|---|
| ColorSets.FromHex | Sources/RichText/Models/ColorSet.swift:33-37 | the string initialiser stores light, dark and `isImportant` unchanged; `isImportant` defaults to false |
| ColorSets.FromPlatformColors | Sources/RichText/Models/ColorSet.swift:45-48 | a platform colour with no hex form falls back to 000000 (light) or F2F2F2 (dark); `isImportant` is stored as given |
| ColorSets.Value | Sources/RichText/Models/ColorSet.swift:66-68 | every value starts with `#` |
| ColorSets.ValueLayout | Sources/RichText/Models/ColorSet.swift:67 | `value(true)` is `#` + light, and `value(false)` is `#` + dark, each followed by ` !important` exactly when `isImportant` |
| ColorSets.ValueModesAgree | Sources/RichText/Models/ColorSet.swift:67 | the values for the two modes are equal if and only if light == dark |
| TextAlignmentExtension.HtmlDescription | Sources/RichText/Shared/Extensions/TextAlignment+Extension.swift:11-20 | every keyword is one of left, center, right |
| TextAlignmentExtension.FromHtmlDescription | Sources/RichText/Shared/Extensions/TextAlignment+Extension.swift:11-20 | the inverse reading succeeds exactly on the three keywords |
| TextAlignmentExtension.HtmlDescriptionValues | Sources/RichText/Shared/Extensions/TextAlignment+Extension.swift:13-18 | center gives "center", leading gives "left", trailing gives "right" |
| TextAlignmentExtension.HtmlDescriptionRoundTrip | Sources/RichText/Shared/Extensions/TextAlignment+Extension.swift:11-20 | reading back a keyword gives its alignment; a string reads as `a` if and only if it is `a`'s keyword |
| TextAlignmentExtension.HtmlDescriptionInjective | Sources/RichText/Shared/Extensions/TextAlignment+Extension.swift:11-20 | distinct alignments have distinct keywords |
| RichTextEnums.FontName | Sources/RichText/Models/RichTextEnums.swift:23-46 | `.customName(n)` gives n unquoted; `.system` and the deprecated `.default` both give "-apple-system"; monospaced and italic give the platform's names |
| RichTextEnums.CaseSets | Sources/RichText/Models/RichTextEnums.swift:57-67 | `ColorScheme` and `ColorPreference` each have exactly three pairwise-distinct cases |
| RichTextConstants.ConstantValues | Sources/RichText/Models/RichTextConstants.swift:17-43 | the default line height is 170, the radius 0, the colours 000000 and F2F2F2; the two handler names differ, and so do the schemes |
| RichTextConstants.TextCSSSlotOrder | Sources/RichText/Models/RichTextConstants.swift:47 | `textCSS` takes its five arguments in the order text-align, line-height, font-family, color, background-color |
| RichTextConstants.HtmlTemplateSlotOrder | Sources/RichText/Models/RichTextConstants.swift:89-136 | `htmlTemplate`'s seven slots occur in the order stylesheet, container id, html, height handler, container id, media handler, media handler |
| RichTextConstants.CssTemplateOrder | Sources/RichText/Models/RichTextConstants.swift:138-148 | `cssTemplate` puts the rules, then the custom CSS, then the body reset |
| RichTextConstants.MediaTemplateOrder | Sources/RichText/Models/RichTextConstants.swift:150-165 | `mediaCSSTemplate` opens the light block before the dark block; the custom CSS comes after both |
| Configurations.DefaultsMatchConstants | Sources/RichText/Models/Configuration.swift:29-40 | the initialiser's defaults are: custom CSS "", system font, colours 000000/F2F2F2 (not important), line height 170, scheme auto, radius 0, Safari, links 007AFF/0A84FF (important), only-links preference, no transition; they agree with the named constants |
| Configurations.Css | Sources/RichText/Models/Configuration.swift:53-61 | the rules contain, in this order, radius, `text-align:` + alignment keyword, line height, font family with `!important`, `color: ` + `fontColor.value`, and `a:link` with `linkColor.value` |
| Configurations.CssModesDiffer | Sources/RichText/Models/Configuration.swift:55-58 | the light and dark rules differ when the two text colours are distinct hex strings of equal length |
| Configurations.DefaultCssModesDiffer | Sources/RichText/Models/Configuration.swift:29-61 | for the default configuration, `css(true, a) != css(false, a)` |
| Configurations.CssFrame | Sources/RichText/Models/Configuration.swift:53-61 | `css` reads only radius, line height, font type, the two colour sets and the alignment; custom CSS, scheme, link type and transition do not affect it |
| Configurations.FixedColorImportance | Sources/RichText/Models/Webview.swift:153 | the fixed text-colour declaration of the earlier web views carries `!important` if and only if `colorImportant` is set, for any hex digits without `!` |
| RichTextWebView.GenerateCSS | Sources/RichText/Views/Webview.swift:207-251 | light and dark fill `cssTemplate` with that mode's rules followed by the custom CSS; auto fills `mediaCSSTemplate` with the light block, then the dark block, then the custom CSS |
| RichTextWebView.GenerateHTML | Sources/RichText/Views/Webview.swift:179-204 | the document contains, in order, the stylesheet, the container id, the HTML, the height handler name and the container id again; the HTML sits between a head that depends only on the stylesheet and a fixed tail |
| RichTextWebView.PageTailOpensWithClosingTags | Sources/RichText/Views/Webview.swift:185-186 | what follows the HTML opens with `</div>` and `</BODY>` |
| RichTextWebView.GenerateHTMLInjective | Sources/RichText/Views/Webview.swift:179-204 | with the other properties fixed, different HTML gives different documents |
| RichTextWebView.WithReader | Sources/RichText/Views/Webview.swift:146-149 | a given reader flag overrides `entersReaderIfAvailable`, and an absent one leaves the configuration as it was |
| RichTextWebView.WebLinkEffect | Sources/RichText/Views/Webview.swift:143-161 | for web links, SFSafariView presents in-app with its animation flag, Safari opens through the system, and none and custom do nothing |
| RichTextWebView.SchemeEffect | Sources/RichText/Views/Webview.swift:136-170 | mailto and tel open through the system; http and https open by link type; under UIKit another scheme opens only when `canOpenURL` allows, and under AppKit it always opens |
| RichTextWebView.Rewritten | Sources/RichText/Views/Webview.swift:128-134 | a URL without a scheme becomes `URL(string: "https://" + absoluteString)`; any other URL stays as it is |
| RichTextWebView.AllowExactlyNonLinks | Sources/RichText/Views/Webview.swift:118-123 | the policy is allow exactly for navigations that are not activated links, or that have no URL, and those trigger nothing; every other navigation is cancelled |
| RichTextWebView.CustomRunsOnlyAction | Sources/RichText/Views/Webview.swift:125-126 | with `.custom` the only effect is the closure, called on the URL as tapped |
| RichTextWebView.DispatchUsesRewrittenUrl | Sources/RichText/Views/Webview.swift:128-173 | the other link types act only on the rewritten URL; a failed `https://` rewrite cancels with no effect |
| RichTextWebView.MailAndPhoneGoToSystem | Sources/RichText/Views/Webview.swift:137-142 | for every link type other than `.custom`, mailto and tel links are cancelled and go to the system opener |
| RichTextWebView.OtherSchemesNeedCanOpen | Sources/RichText/Views/Webview.swift:162-167 | under UIKit, a link of any other scheme opens if and only if `canOpenURL` holds |
| RichTextWebView.Coordinator.constructor | Sources/RichText/Views/Webview.swift:101-103 | the coordinator holds its view and the current height |
| RichTextWebView.Coordinator.UserContentController | Sources/RichText/Views/Webview.swift:106-116 | the new height is given by `HeightAfter` |
| RichTextWebView.Coordinator.DecidePolicyFor | Sources/RichText/Views/Webview.swift:118-173 | the policy handed to the decision handler and the effect triggered are those `Decision` describes, whose properties the lemmas above state |
| RichTextWebView.HeightAfter | Sources/RichText/Views/Webview.swift:106-116 | a `notifyCompletion` message with a numeric body sets the height to that number, a boolean body sets it to 1 or 0 through the bridge; any other name, or a body that is not an `NSNumber`, leaves the height unchanged |
| WebKit.AsNSNumber | Sources/RichText/Views/Webview.swift:108 | the bridge to `NSNumber` succeeds exactly for numbers and booleans, keeps a number's value, and bridges `true` to 1 and `false` to 0 |
| RichTextWebView.HeightKeptWithoutSetters | Sources/RichText/Views/Webview.swift:106-116 | a run of messages none of which sets the height leaves it unchanged |
| RichTextWebView.HeightAfterAppend | Sources/RichText/Views/Webview.swift:106-116 | delivering two runs one after the other equals delivering their concatenation |
| RichTextWebView.LastSetterWins | Sources/RichText/Views/Webview.swift:106-116 | after any run of messages, the height is the number carried by the last message that sets it |
| RichTextWebView.HeightAfterIdempotent | Sources/RichText/Views/Webview.swift:106-116 | redelivering a message changes nothing further |
| RichTextWebView.MediaClickKeepsHeight | Sources/RichText/Views/Webview.swift:107 | a `mediaClick` message never changes the height |
| ModelsWebview.Css | Sources/RichText/Models/Webview.swift:150-157 | the rules contain, in order, radius, alignment keyword, line height, font family with `!important`, the colour declaration `color: #000000` (light) or `#F2F2F2` (dark), ended by `;`, which contains `!important` if and only if `colorImportant`, and the link colour `linkColor.light` or `linkColor.dark` |
| ModelsWebview.GenerateCSS | Sources/RichText/Models/Webview.swift:128-148 | light and dark give exactly `<style type='text/css'>`, that mode's rules, the custom CSS and `</style><BODY>`; automatic opens the style element, puts the light media block, the dark media block, then the custom CSS, and ends by closing the style and opening the body |
| ModelsWebview.GenerateHTML | Sources/RichText/Models/Webview.swift:115-125 | the HTML comes after the stylesheet, in a plain `<div>`, between a head that depends only on the stylesheet and the fixed closing tags |
| ModelsWebview.GenerateHTMLInjective | Sources/RichText/Models/Webview.swift:115-125 | with the other properties fixed, different HTML gives different documents |
| ModelsWebview.GenerateCSSIgnoresHtml | Sources/RichText/Models/Webview.swift:128-157 | the stylesheet does not depend on the HTML |
| ModelsWebview.CancelExactlyLinks | Sources/RichText/Models/Webview.swift:92-110 | activated links are cancelled and every other navigation is allowed; only activated links with a URL trigger anything |
| ModelsWebview.DispatchNeverRewrites | Sources/RichText/Models/Webview.swift:96-103 | the opener always receives the request's URL unchanged |
| ModelsWebview.LinkDispatch | Sources/RichText/Models/Webview.swift:96-103 | SFSafariView presents with its configuration and animation flag, Safari opens through the system, and none only logs |
| LegacyEnums.ColorSchemeRaw | Sources/RichText/RichTextEnums.swift:10-14 | the raw values are "light", "dark" and "automatic" |
| LegacyEnums.ColorSchemeFromRaw | Sources/RichText/RichTextEnums.swift:10-14 | `init(rawValue:)` gives a case whose raw value is the input, and gives nothing for any other string |
| LegacyEnums.ColorSchemeRoundTrip | Sources/RichText/RichTextEnums.swift:10-14 | decoding a case's raw value gives that case; decoding fails exactly on strings that are no case's raw value |
| LegacyEnums.FontTypeRaw | Sources/RichText/RichTextEnums.swift:16-23 | the raw values are "system", "monospaced", "italic" and "default" |
| LegacyEnums.FontTypeFromRaw | Sources/RichText/RichTextEnums.swift:16-23 | the decoder is sound and fails on any other string |
| LegacyEnums.FontTypeRoundTrip | Sources/RichText/RichTextEnums.swift:16-23 | the round trip holds, and decoding fails exactly on the non-raw strings |
| LegacyEnums.LinkOpenTypeRaw | Sources/RichText/RichTextEnums.swift:25-30 | the raw values are "SFSafariView", "SFSafariViewWithReader", "Safari" and "none" |
| LegacyEnums.LinkOpenTypeFromRaw | Sources/RichText/RichTextEnums.swift:25-30 | the decoder is sound and fails on any other string |
| LegacyEnums.LinkOpenTypeRoundTrip | Sources/RichText/RichTextEnums.swift:25-30 | the round trip holds, and decoding fails exactly on the non-raw strings |
| LegacyEnums.RawValuesInjective | Sources/RichText/RichTextEnums.swift:10-30 | within each enum the raw values are pairwise distinct |
| LegacyWebview.FontName | Sources/RichText/Webview.swift:171-183 | `.system` and the default branch give "-apple-system"; monospaced and italic give the platform's names |
| LegacyWebview.Rules | Sources/RichText/Webview.swift:130-134 | one mode's rules contain, in order, radius, the fixed `text-align:left\|right\|center`, line height, font family without `!important`, the colour declaration `color: #000000` or `#F2F2F2`, ended by `;`, which contains `!important` if and only if `colorImportant`, and `linkColor.light` or `linkColor.dark` |
| LegacyWebview.CssFor | Sources/RichText/Webview.swift:124-169 | light and dark give a style element with that mode's rules, then `<BODY>`; automatic gives the light rules, then the dark rules, each after its `@media` opener, then `<BODY>`; the fixed alignment text is always present |
| LegacyWebview.DocumentHtml | Sources/RichText/Webview.swift:96-103 | the document is exactly `htmlStart`, the stylesheet of the view's scheme, the HTML and `</BODY></HTML>` |
| LegacyWebview.CssIgnoresHtml | Sources/RichText/Webview.swift:124-169 | the stylesheet does not depend on the HTML |
| LegacyWebview.DocumentHtmlInjective | Sources/RichText/Webview.swift:103 | with the other properties fixed, different HTML gives different documents |
| LegacyWebview.CancelExactlyLinks | Sources/RichText/Webview.swift:61-85 | activated links are cancelled and every other navigation is allowed; the URL of an effect is the request's URL |
| LegacyWebview.LinkDispatch | Sources/RichText/Webview.swift:66-77 | SFSafariView presents the link's URL animated with the default configuration; SFSafariViewWithReader presents it animated with reader mode forced on; Safari opens it through the system; none only logs it |
| LegacyRichText.Init | Sources/RichText/RichText.swift:13-29 | `init(html:)` stores the HTML verbatim; every other property takes its declared default (170, 0, system, automatic, not important, no placeholder, SFSafariView, #007AFF/#0A84FF) |
| LegacyRichText.InitDeterminedByHtml | Sources/RichText/RichText.swift:25-29 | two initialised views are equal if and only if their HTML is; the default link colours already carry `#` |
| LegacyRichText.WebviewOf | Sources/RichText/RichText.swift:33 | `body` passes every stored property to `Webview` unchanged |
| LegacyRichText.WebviewOfLosesNothing | Sources/RichText/RichText.swift:33 | the web view and the placeholder together determine the view |
| LegacyRichText.Render | Sources/RichText/RichText.swift:31-40 | the web view is framed to the current height; the placeholder is shown if and only if the height is 0 and there is a placeholder |
| LegacyRichText.RichTextView.constructor | Sources/RichText/RichText.swift:11 | the `@State` height starts at 0 |
| LegacyRichText.RichTextView.SetHeight | Sources/RichText/RichText.swift:11-38 | after a write through the binding, the placeholder is shown if and only if the new height is 0 |
| LegacyRichText.PlaceholderUntilHeight | Sources/RichText/RichText.swift:34-38 | at height 0 the overlay is the placeholder; at any other height there is none; the web view does not depend on the height |
| Modifiers.LineHeight | Sources/RichText/Extensions/RichText+Extension.swift:12-17 | the copy has the new line height, and every other property is equal |
| Modifiers.ImageRadius | Sources/RichText/Extensions/RichText+Extension.swift:19-24 | the copy has the new radius, and every other property is equal |
| Modifiers.FontType | Sources/RichText/Extensions/RichText+Extension.swift:26-31 | the copy has the new font type, and every other property is equal |
| Modifiers.ColorScheme | Sources/RichText/Extensions/RichText+Extension.swift:33-38 | the copy has the new scheme, and every other property is equal |
| Modifiers.ColorImportant | Sources/RichText/Extensions/RichText+Extension.swift:40-45 | the copy has the new flag, and every other property is equal |
| Modifiers.Placeholder | Sources/RichText/Extensions/RichText+Extension.swift:47-52 | afterwards the placeholder is present and is the built view; every other property is equal |
| Modifiers.LinkOpenType | Sources/RichText/Extensions/RichText+Extension.swift:54-59 | the copy has the new link type, and every other property is equal |
| Modifiers.LinkColor | Sources/RichText/Extensions/RichText+Extension.swift:61-66 | the copy has the new link colours, and every other property is equal |
| Modifiers.CustomCSS | Sources/RichText/Extensions/RichText+Extension.swift:68-73 | the new custom CSS is the old text followed by the argument, and every other property is equal |
| Modifiers.Apply | Sources/RichText/Extensions/RichText+Extension.swift:12-73 | every modifier changes at most its own property and never the HTML |
| Modifiers.SetterForgetsOldValue | Sources/RichText/Extensions/RichText+Extension.swift:12-66 | a setter's result does not depend on the value it overwrites |
| Modifiers.LastWriteWins | Sources/RichText/Extensions/RichText+Extension.swift:12-66 | of two setters of the same property, the later one wins; each setter is idempotent |
| Modifiers.Commute | Sources/RichText/Extensions/RichText+Extension.swift:12-73 | modifiers of different properties commute |
| Modifiers.CustomCSSAppends | Sources/RichText/Extensions/RichText+Extension.swift:68-73 | `customCSS("")` is the identity, and `customCSS(a).customCSS(b) == customCSS(a + b)` |
| Modifiers.ApplyAllCustomCSS | Sources/RichText/Extensions/RichText+Extension.swift:68-73 | after any chain of modifiers, the custom CSS is the original followed by every appended text, in call order |
| Modifiers.ApplyAllLastLineHeight | Sources/RichText/Extensions/RichText+Extension.swift:12-17 | a chain that ends with `lineHeight(x)` has line height x, whatever came before |
| BackgroundModifier.CssString | Sources/RichText/Models/RichTextBackgroundModifier.swift:20-35 | `.clear` gives "transparent"; other colours give `#` and six upper-case hex digits; neither contains `;`, `:` or a line end |
| BackgroundModifier.Hex2 | Sources/RichText/Models/RichTextBackgroundModifier.swift:26 | `%02lX` of a component is two upper-case hex digits |
| BackgroundModifier.Replacement | Sources/RichText/Models/RichTextBackgroundModifier.swift:12 | the replacement text opens with `background-color:` |
| BackgroundModifier.StopAt | Sources/RichText/Models/RichTextBackgroundModifier.swift:12 | returns the first `;` or line terminator at or after the given point, or the end of the text |
| BackgroundModifier.RunEnd | Sources/RichText/Models/RichTextBackgroundModifier.swift:12 | the lazy `.*?;` ends at a `;` with no `;` and no line end before it |
| BackgroundModifier.MatchLength | Sources/RichText/Models/RichTextBackgroundModifier.swift:12 | a match at the start of a text has positive length exactly when `background-color:` opens the text and a `;` follows on the same line; the match ends just after the first such `;` |
| BackgroundModifier.FirstMatch | Sources/RichText/Models/RichTextBackgroundModifier.swift:12 | the scan's first match starts at the returned position, or there is no match and the position is the end of the text |
| BackgroundModifier.NoMatchBeforeFirst | Sources/RichText/Models/RichTextBackgroundModifier.swift:12 | no match starts before the first match |
| BackgroundModifier.SplitAtFirstMatch | Sources/RichText/Models/RichTextBackgroundModifier.swift:12 | the text before the first match is copied unchanged, and the rewrite continues from the match |
| BackgroundModifier.NoMatchUnchanged | Sources/RichText/Models/RichTextBackgroundModifier.swift:12 | text in which nothing matches at any position is left as it is |
| BackgroundModifier.UnchangedOrReplaced | Sources/RichText/Models/RichTextBackgroundModifier.swift:12 | the rewrite either changes nothing or leaves the replacement in the text |
| BackgroundModifier.ReplacementMatches | Sources/RichText/Models/RichTextBackgroundModifier.swift:12 | a replacement is itself one whole match, ending at its own `;` |
| BackgroundModifier.NoMatchStaysNoMatch | Sources/RichText/Models/RichTextBackgroundModifier.swift:12 | a position with no match gains none when the text after it is rewritten |
| BackgroundModifier.ReplaceRunsIdempotent | Sources/RichText/Models/RichTextBackgroundModifier.swift:12 | rewriting twice with the same colour equals rewriting once |
| BackgroundModifier.RichTextBackground | Sources/RichText/Models/RichTextBackgroundModifier.swift:6-17 | if the custom CSS contains `background-color:`, the declarations are rewritten and the background colour is kept; otherwise the custom CSS is kept and the background colour becomes `cssString(color)`; nothing else changes |
| BackgroundModifier.RewriteKeepsPrefix | Sources/RichText/Models/RichTextBackgroundModifier.swift:10-12 | after a rewrite, the custom CSS still contains `background-color:` |
| BackgroundModifier.RichTextBackgroundIdempotent | Sources/RichText/Models/RichTextBackgroundModifier.swift:6-17 | applying the modifier twice with one colour equals applying it once |
| BackgroundModifier.MentionWithoutRunIgnored | Sources/RichText/Models/RichTextBackgroundModifier.swift:10-15 | if the CSS mentions `background-color:` but no match exists (no `;` on the same line), the modifier changes nothing at all |

## Left out

- Native view binding is not modelled: `makeUIView`, `updateUIView`, `makeNSView`, `updateNSView`, `ScrollAdjustedWKWebView` and the web view's scroll and opacity settings. The document each of them loads is modelled as the function that builds it.
- `DispatchQueue.main.async` and `withAnimation(conf.transition)` around the height write are not modelled. The model sets the height at once, and `transition` has no effect in it.
- `didFinish` height reads are not modelled (Sources/RichText/Webview.swift:53-59 and Sources/RichText/Models/Webview.swift:84-90). They rely on `evaluateJavaScript` and a forced cast.
- Opening URLs, presenting `SFSafariViewController`, calling the `.custom` closure and `print(url)` are foreign calls. They are returned as `LinkEffect` values. The separate `print("no link")` of Sources/RichText/Webview.swift:83 is not recorded.
- `canOpenURL` and `URL(string:)` are uninterpreted parameters of `Host`. `CGFloat` text rendering and the monospaced and italic font names are uninterpreted parameters of `Env`.
- `CGFloat` line heights, image radii and message heights are modelled as mathematical `real` numbers. NaN, the infinities, negative zero and `Double` rounding do not exist in the model.
- `FontType.custom(UIFont)` is modelled by the font name it yields. The UIFont itself is not modelled.
- The colour-to-hex extensions and the float-to-integer step of `cssString(from:)` are not modelled. These are Color+Extension.swift, UIColor+Hex.swift and NSColor+Hex.swift. `BackgroundModifier.Color` takes components already scaled to 0-255; out-of-range components from extended colour spaces are not modelled.
- The web-view files for the iOS 26 `WebPage` API are not part of this model: SwiftUIWebView.swift, SwiftUIRichText.swift and SwiftUIConfiguration.swift.
- The view bodies of Sources/RichText/Views/RichText.swift and Sources/RichText/Shared/Views/RichText.swift are not part of this model.
- No code in Sources/RichText reads `html5ElementsCSS`, `dynamicTypeCSS`, `linkDecorationCSS`, `bodyCSS` or `iframeHeight`. The last three are declared as constants and the first two are not modelled.
- `colorMultiplier` is not modelled. Only `UIColor.hex` in Sources/RichText/Extensions/Color+Extension.swift:27 reads it, to scale float components to bytes, and that colour-to-hex extension is left out above.
- General regular expressions are not modelled. Only the one pattern `background-color:.*?;` is modelled, with ICU's rule that `.` does not match a line terminator. The replacement template is taken literally, because the colour text never contains `$` or `\`. Text is a sequence of code points, so grapheme clustering and UTF-16 indexing are not modelled.
- BackgroundModifier.RichTextBackground: Models/Configuration.swift declares no `backgroundColor` field, although the modifier reads one. The model keeps `customCSS`, `backgroundColor` and an opaque rest.
- Modifiers.Placeholder: `AnyView(content())` is modelled by an opaque `Views.AnyView` value that the caller gives. Running the view builder is not modelled.
- Mutation of the `SFSafariViewController.Configuration` object is modelled as a new value. Views/Webview.swift:147-148 writes the reader flag into the object held by the enum case; that aliasing is not modelled.
- RichTextWebView.Decision requires that AppKit is not used with an `SFSafariView` link type, because that case does not exist under AppKit.
- The literal names the source hard-codes in Views/Webview.swift (`"notifyCompletion"`, `"NuPlay_RichText"`) are written through the `RichTextConstants` constants, which hold the same text.
- Configuration's memberwise initialiser is Dafny's datatype constructor. It stores each argument in its field by construction.
