/** Leaf classification: which kind a view node is, decided from its native
    autofill hints first and from its HTML `ua-autofill-hints` attribute second. */
module Classifier {
  import opened Optional
  import opened AutofillType

  /** The platform's autofill id of a node: an opaque handle, compared but never
      interpreted. */
  type AutofillId = nat

  /** The HTML attributes the platform reports for a node rendered from markup;
      `None` stands for a null attribute list. */
  datatype HtmlInfo = HtmlInfo(attributes: Option<seq<(string, string)>>)

  /** A node of the assist structure.  `childCount` is `|children|`. */
  datatype ViewNode = ViewNode(
    autofillId: AutofillId,
    autofillHints: Option<seq<string>>,
    htmlInfo: Option<HtmlInfo>,
    children: seq<ViewNode>)

  const UaAutofillHints: string := "ua-autofill-hints"

  /** The value of the first attribute called `name`. */
  function FirstAttributeValue(attributes: seq<(string, string)>, name: string): (r: Option<string>)
    ensures r.None? <==> forall i :: 0 <= i < |attributes| ==> attributes[i].0 != name
    ensures r.Some? ==> exists i :: 0 <= i < |attributes| && attributes[i] == (name, r.value)
                                   && forall j :: 0 <= j < i ==> attributes[j].0 != name
  {
    if |attributes| == 0 then None
    else if attributes[0].0 == name then Some(attributes[0].1)
    else
      var r := FirstAttributeValue(attributes[1..], name);
      assert forall i :: 1 <= i < |attributes| ==> attributes[i] == attributes[1..][i - 1];
      r
  }

  /** The HTML autofill hint of a node: the value of its first `ua-autofill-hints`
      attribute, or nothing when there is no HtmlInfo, no attribute list, an empty
      one, or no such attribute. */
  function AutofillHint(info: Option<HtmlInfo>): (r: Option<string>)
    ensures r.Some? <==> info.Some? && info.value.attributes.Some?
                         && exists i :: 0 <= i < |info.value.attributes.value|
                                        && info.value.attributes.value[i].0 == UaAutofillHints
    ensures r.Some? ==>
              var attributes := info.value.attributes.value;
              exists i :: 0 <= i < |attributes| && attributes[i] == (UaAutofillHints, r.value)
                          && forall j :: 0 <= j < i ==> attributes[j].0 != UaAutofillHints
  {
    if info.None? then None
    else if info.value.attributes.None? || |info.value.attributes.value| == 0 then None
    else FirstAttributeValue(info.value.attributes.value, UaAutofillHints)
  }

  /** The native hints of a node contain the native token of `k`. */
  predicate HasNativeToken(hints: Option<seq<string>>, k: NativeAutofillType) {
    hints.Some? && NativeHint(k).Some? && NativeHint(k).value in hints.value
  }

  /** The HTML hint of a node is the HTML token of `k`. */
  predicate HasHtmlToken(hint: Option<string>, k: NativeAutofillType) {
    hint.Some? && HtmlHint(k) == hint
  }

  /** `k` is the earliest-declared kind whose native token the hints contain. */
  ghost predicate FirstNativeMatch(hints: Option<seq<string>>, k: NativeAutofillType) {
    HasNativeToken(hints, k) && forall j :: HasNativeToken(hints, j) ==> Ordinal(k) <= Ordinal(j)
  }

  /** Kind named by the native hints: the first kind in declaration order whose
      token they contain; `Unknown` for null or empty hints. */
  function DetermineAutofillTypeFromNativeHints(hints: Option<seq<string>>): (k: NativeAutofillType)
    ensures hints.None? || |hints.value| == 0 ==> k == Unknown
    ensures k == Unknown <==> forall j :: !HasNativeToken(hints, j)
    ensures k != Unknown ==> FirstNativeMatch(hints, k)
  {
    if hints.None? || |hints.value| == 0 then Unknown
    else
      var p := j => HasNativeToken(hints, j);
      FirstWhereDeclarationOrder(p);
      FirstWhere(DeclarationOrder, p).GetOr(Unknown)
  }

  /** Kind named by the HTML hint: the kind whose token equals it; `Unknown` for a
      null or empty hint or an unrecognised one. */
  function DetermineAutofillTypeFromHtmlHints(hint: Option<string>): (k: NativeAutofillType)
    ensures hint.None? || hint.value == "" ==> k == Unknown
    ensures k == Unknown <==> forall j :: !HasHtmlToken(hint, j)
    ensures k != Unknown ==> HasHtmlToken(hint, k)
  {
    if hint.None? || hint.value == "" then Unknown
    else
      var p := j => HasHtmlToken(hint, j);
      FirstWhereDeclarationOrder(p);
      FirstWhere(DeclarationOrder, p).GetOr(Unknown)
  }

  /** Independent statement of the two-stage rule: a native token wins (the
      first in declaration order), else an HTML token, else `Unknown`. */
  ghost predicate Classifies(hints: Option<seq<string>>, hint: Option<string>, k: NativeAutofillType) {
    if exists j :: HasNativeToken(hints, j) then FirstNativeMatch(hints, k)
    else if exists j :: HasHtmlToken(hint, j) then HasHtmlToken(hint, k)
    else k == Unknown
  }

  /** Kind of a leaf node, by the two-stage rule. */
  function DetermineAutofillType(node: ViewNode): (k: NativeAutofillType)
    ensures Classifies(node.autofillHints, AutofillHint(node.htmlInfo), k)
  {
    var fromNative := DetermineAutofillTypeFromNativeHints(node.autofillHints);
    if fromNative != Unknown then fromNative
    else
      var fromHtml := DetermineAutofillTypeFromHtmlHints(AutofillHint(node.htmlInfo));
      if fromHtml != Unknown then fromHtml
      else Unknown
  }

  /** The rule determines at most one kind, so the contract of
      `DetermineAutofillType` pins its result down completely. */
  lemma ClassificationIsUnique(hints: Option<seq<string>>, hint: Option<string>, a: NativeAutofillType, b: NativeAutofillType)
    requires Classifies(hints, hint, a) && Classifies(hints, hint, b)
    ensures a == b
  {
  }

  /** A native token decides the kind whatever the HTML hint says. */
  lemma NativeHintPrecedence(node: ViewNode, k: NativeAutofillType)
    requires HasNativeToken(node.autofillHints, k)
    ensures DetermineAutofillType(node) != Unknown
    ensures HasNativeToken(node.autofillHints, DetermineAutofillType(node))
    ensures Ordinal(DetermineAutofillType(node)) <= Ordinal(k)
    ensures forall other: Option<HtmlInfo> ::
              DetermineAutofillType(node.(htmlInfo := other)) == DetermineAutofillType(node)
  {
  }

  /** With no native token (null, empty or unrecognised hints) the HTML hint
      alone decides, and a missing HTML hint gives `Unknown` rather than an error. */
  lemma HtmlHintFallback(node: ViewNode)
    requires forall j :: !HasNativeToken(node.autofillHints, j)
    ensures DetermineAutofillType(node)
            == DetermineAutofillTypeFromHtmlHints(AutofillHint(node.htmlInfo))
    ensures AutofillHint(node.htmlInfo).None? ==> DetermineAutofillType(node) == Unknown
  {
  }

  /** A leaf hinted `cc-number` natively and `NAME_FULL` in HTML is a card number. */
  lemma NativeBeatsHtmlExample(id: AutofillId)
    ensures DetermineAutofillType(
              ViewNode(id, Some(["cc-number"]),
                       Some(HtmlInfo(Some([(UaAutofillHints, "NAME_FULL")]))), []))
            == CreditCardNumber
  {
    var node := ViewNode(id, Some(["cc-number"]),
                         Some(HtmlInfo(Some([(UaAutofillHints, "NAME_FULL")]))), []);
    NativeHintPrecedence(node, CreditCardNumber);
  }

  /** Several native tokens: declaration order decides, not the order of the hints. */
  lemma DeclarationOrderBreaksTiesExample(id: AutofillId)
    ensures DetermineAutofillType(ViewNode(id, Some(["email", "name", "cc-exp"]), None, []))
            == CreditCardExpiry
  {
    var node := ViewNode(id, Some(["email", "name", "cc-exp"]), None, []);
    NativeHintPrecedence(node, CreditCardExpiry);
  }

  /** A leaf with no hints at all is `Unknown`. */
  lemma NoHintsIsUnknown(id: AutofillId, info: Option<HtmlInfo>)
    requires info.None? || info.value.attributes.None? || info.value.attributes.value == []
    ensures DetermineAutofillType(ViewNode(id, None, info, [])) == Unknown
    ensures DetermineAutofillType(ViewNode(id, Some([]), info, [])) == Unknown
  {
  }
}
