/**
 * The WebKit and Foundation values the web-view coordinators receive and produce,
 * reduced to what the library inspects.
 */
module WebKit {
  import opened Wrappers

  /** A `URL`: its optional scheme and its absolute string. */
  datatype Url = Url(scheme: Option<string>, absoluteString: string)

  /** `WKNavigationType`. */
  datatype NavigationType = LinkActivated | FormSubmitted | BackForward | Reload | FormResubmitted | Other

  /** A `WKNavigationAction`: its type and the optional URL of its request. */
  datatype NavigationAction = NavigationAction(navigationType: NavigationType, url: Option<Url>)

  /** `WKNavigationActionPolicy`, as passed to the decision handler. */
  datatype NavigationPolicy = Allow | Cancel

  /**
   * The body of a `WKScriptMessage`. WebKit bridges JavaScript numbers and booleans to
   * `NSNumber`, strings to `NSString`, and so on.
   */
  datatype MessageBody =
    | JSNumber(number: real)
    | JSBoolean(flag: bool)
    | JSString(text: string)
    | JSArray
    | JSObject
    | JSDate
    | JSNull

  /** `WKScriptMessage`: the handler name it was posted to and its body. */
  datatype ScriptMessage = ScriptMessage(name: string, body: MessageBody)

  /** `message.body as? NSNumber`, followed by `doubleValue`. */
  function AsNSNumber(body: MessageBody): (r: Option<real>)
    ensures r.Some? <==> (body.JSNumber? || body.JSBoolean?)
    ensures body.JSNumber? ==> r == Some(body.number)
    ensures body.JSBoolean? ==> r == Some(if body.flag then 1.0 else 0.0)
  {
    match body
    case JSNumber(x) => Some(x)
    case JSBoolean(b) => Some(if b then 1.0 else 0.0)
    case _ => None
  }
}
