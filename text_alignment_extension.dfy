/** SwiftUI's `TextAlignment` and its CSS `text-align` value (`htmlDescription`). */
module TextAlignmentExtension {
  import opened Wrappers

  datatype TextAlignment = Leading | Center | Trailing

  /** `htmlDescription`: leading is CSS `left`, trailing is `right`. */
  function HtmlDescription(a: TextAlignment): (r: string)
    ensures r in {"left", "center", "right"}
  {
    match a
    case Center => "center"
    case Leading => "left"
    case Trailing => "right"
  }

  /** Reads a CSS `text-align` value back; the partner of `HtmlDescription`. */
  function FromHtmlDescription(s: string): (r: Option<TextAlignment>)
    ensures r.Some? <==> s in {"left", "center", "right"}
  {
    if s == "center" then Some(Center)
    else if s == "left" then Some(Leading)
    else if s == "right" then Some(Trailing)
    else None
  }

  /** The three cases map to the three literals of the source. */
  lemma HtmlDescriptionValues()
    ensures HtmlDescription(Center) == "center"
    ensures HtmlDescription(Leading) == "left"
    ensures HtmlDescription(Trailing) == "right"
  {
  }

  /** Decoding inverts the mapping both ways, so the mapping is injective. */
  lemma HtmlDescriptionRoundTrip(a: TextAlignment, s: string)
    ensures FromHtmlDescription(HtmlDescription(a)) == Some(a)
    ensures FromHtmlDescription(s) == Some(a) <==> HtmlDescription(a) == s
  {
  }

  lemma HtmlDescriptionInjective(a: TextAlignment, b: TextAlignment)
    ensures HtmlDescription(a) == HtmlDescription(b) ==> a == b
  {
    HtmlDescriptionRoundTrip(a, HtmlDescription(b));
  }
}
