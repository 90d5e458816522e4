/**
 * What a link decision triggers besides the policy: the open, present, callback or log
 * call the coordinator makes, recorded as a value instead of being performed.
 */
module LinkEffects {
  import opened Wrappers
  import opened WebKit
  import RichTextEnums

  datatype LinkEffect =
    | NoEffect
    /** The `.custom(action)` closure called with the URL. */
    | CustomAction(url: Url)
    /** `UIApplication.shared.open` or `NSWorkspace.shared.open`. */
    | SystemOpen(url: Url)
    /** An `SFSafariViewController` presented on the root view controller. */
    | PresentSafari(url: Url, configuration: RichTextEnums.SafariConfiguration, animated: bool)
    /** The URL printed to the console. */
    | LogUrl(url: Url)

  /** The URL an effect acts on, if any. */
  function EffectUrl(e: LinkEffect): Option<Url> {
    match e
    case NoEffect => None
    case CustomAction(u) => Some(u)
    case SystemOpen(u) => Some(u)
    case PresentSafari(u, _, _) => Some(u)
    case LogUrl(u) => Some(u)
  }
}
