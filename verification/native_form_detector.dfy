/** The coarse "does this page have a login form" check: some input-like element
    and some submit-like element anywhere in the document body. */
module NativeFormDetector {
  import opened Optional

  /** An element of the parsed body: its tag and its `type` and `role` attributes. */
  datatype Element = Element(tag: string, typeAttr: Option<string>, role: Option<string>)

  /** The elements of the body, the body itself included, in document order. */
  type Body = seq<Element>

  const ExcludedInputTypes: set<string> := {"submit", "button", "checkbox", "radio", "hidden", "file"}

  /** The input-type selector: an `input` whose type is not one of the
      non-text types (an `input` without a type counts), or any `select`. */
  predicate MatchesInputTypeSelector(e: Element) {
    || (e.tag == "input" && !(e.typeAttr.Some? && e.typeAttr.value in ExcludedInputTypes))
    || e.tag == "select"
  }

  /** The submit-button selector: a submit or button `input`, a `button` whose
      role is neither `switch` nor `link`, or any element with role `button`. */
  predicate MatchesSubmitButtonSelector(e: Element) {
    || (e.tag == "input" && e.typeAttr == Some("submit"))
    || (e.tag == "input" && e.typeAttr == Some("button"))
    || (e.tag == "button" && e.role != Some("switch") && e.role != Some("link"))
    || e.role == Some("button")
  }

  /** The elements that match a selector, in document order. */
  function Select(body: Body, matches: Element -> bool): (r: Body)
    ensures forall e :: e in r <==> e in body && matches(e)
    ensures |r| <= |body|
  {
    if |body| == 0 then []
    else (if matches(body[0]) then [body[0]] else []) + Select(body[1..], matches)
  }

  /** True exactly when the body has an input candidate and a submit candidate. */
  function HtmlContainsForm(body: Body): (r: bool)
    ensures r <==> (exists e :: e in body && MatchesInputTypeSelector(e))
                   && (exists e :: e in body && MatchesSubmitButtonSelector(e))
  {
    var inputTypes := Select(body, MatchesInputTypeSelector);
    var submitButton := Select(body, MatchesSubmitButtonSelector);
    assert inputTypes != [] ==> inputTypes[0] in inputTypes;
    assert submitButton != [] ==> submitButton[0] in submitButton;
    |inputTypes| > 0 && |submitButton| > 0
  }

  /** The check for a page whose download either produced a body or failed
      with an I/O error (`None`); a failed download means no form. */
  function ContainsLoginForm(downloaded: Option<Body>): (r: bool)
    ensures downloaded.None? ==> !r
    ensures downloaded.Some? ==> (r <==> HtmlContainsForm(downloaded.value))
  {
    match downloaded
    case None => false
    case Some(body) => HtmlContainsForm(body)
  }

  /** Adding elements never turns a detected form into an undetected one. */
  lemma AddingElementsKeepsForm(body: Body, larger: Body)
    requires forall e :: e in body ==> e in larger
    requires HtmlContainsForm(body)
    ensures HtmlContainsForm(larger)
  {
  }

  /** Hidden or submit inputs on their own are not a form; a text input and a
      plain button are. */
  lemma FormExamples()
    ensures !HtmlContainsForm([Element("input", Some("hidden"), None)])
    ensures !HtmlContainsForm([Element("input", Some("submit"), None)])
    ensures HtmlContainsForm([Element("input", Some("text"), None), Element("button", None, None)])
    ensures HtmlContainsForm([Element("input", None, None), Element("input", Some("submit"), None)])
  {
  }
}
