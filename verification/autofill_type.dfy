/** The closed set of field kinds the autofill service recognises, together with
    the native and HTML hint token each kind answers to. */
module AutofillType {
  import opened Optional

  /** One value per object of the sealed class, in declaration order. */
  datatype NativeAutofillType =
    | CreditCardNumber
    | CreditCardExpiry
    | CreditCardSecurityCode
    | NameFull
    | TelephoneFull
    | EmailAddress
    | Unknown

  /** The order in which kinds are tried when a hint is looked up.  The source
      enumerates the sealed class reflectively; this model fixes that order to
      the order of declaration. */
  const DeclarationOrder: seq<NativeAutofillType> :=
    [CreditCardNumber, CreditCardExpiry, CreditCardSecurityCode, NameFull,
     TelephoneFull, EmailAddress, Unknown]

  /** Position of a kind in the declaration order. */
  function Ordinal(k: NativeAutofillType): (i: nat)
    ensures i < |DeclarationOrder| && DeclarationOrder[i] == k
  {
    match k
    case CreditCardNumber => 0
    case CreditCardExpiry => 1
    case CreditCardSecurityCode => 2
    case NameFull => 3
    case TelephoneFull => 4
    case EmailAddress => 5
    case Unknown => 6
  }

  /** The platform autofill hint token of a kind; `Unknown` has none. */
  function NativeHint(k: NativeAutofillType): (token: Option<string>)
    ensures token.Some? <==> k != Unknown
    ensures token.Some? ==> token.value != ""
  {
    match k
    case CreditCardNumber => Some("cc-number")
    case CreditCardExpiry => Some("cc-exp")
    case CreditCardSecurityCode => Some("cc-csc")
    case NameFull => Some("name")
    case TelephoneFull => Some("tel")
    case EmailAddress => Some("email")
    case Unknown => None
  }

  /** The `ua-autofill-hints` HTML token of a kind; `Unknown` has none. */
  function HtmlHint(k: NativeAutofillType): (token: Option<string>)
    ensures token.Some? <==> k != Unknown
    ensures token.Some? ==> token.value != ""
  {
    match k
    case CreditCardNumber => Some("CREDIT_CARD_NUMBER")
    case CreditCardExpiry => Some("CREDIT_CARD_EXP_DATE_2_DIGIT_YEAR")
    case CreditCardSecurityCode => Some("CREDIT_CARD_VERIFICATION_CODE")
    case NameFull => Some("NAME_FULL")
    case TelephoneFull => Some("PHONE_HOME_WHOLE_NUMBER")
    case EmailAddress => Some("EMAIL_ADDRESS")
    case Unknown => None
  }

  /** Every kind except `Unknown` has both tokens, and no two kinds share one. */
  lemma HintTableWellFormed()
    ensures forall k :: k != Unknown <==> NativeHint(k).Some?
    ensures forall k :: k != Unknown <==> HtmlHint(k).Some?
    ensures forall a, b :: NativeHint(a).Some? && NativeHint(a) == NativeHint(b) ==> a == b
    ensures forall a, b :: HtmlHint(a).Some? && HtmlHint(a) == HtmlHint(b) ==> a == b
    ensures forall k :: NativeHint(k) != Some("") && HtmlHint(k) != Some("")
  {
  }

  /** Kotlin's `firstOrNull`: the first kind of `kinds` that satisfies `p`. */
  function FirstWhere(kinds: seq<NativeAutofillType>, p: NativeAutofillType -> bool): (r: Option<NativeAutofillType>)
    ensures r.None? <==> forall i :: 0 <= i < |kinds| ==> !p(kinds[i])
    ensures r.Some? ==> exists i :: 0 <= i < |kinds| && kinds[i] == r.value && p(r.value)
                                   && forall j :: 0 <= j < i ==> !p(kinds[j])
  {
    if |kinds| == 0 then None
    else if p(kinds[0]) then Some(kinds[0])
    else
      var r := FirstWhere(kinds[1..], p);
      assert forall i :: 1 <= i < |kinds| ==> kinds[i] == kinds[1..][i - 1];
      r
  }

  /** `k` satisfies `p` and no kind declared before `k` does. */
  ghost predicate FirstInDeclarationOrder(k: NativeAutofillType, p: NativeAutofillType -> bool) {
    p(k) && forall j :: p(j) ==> Ordinal(k) <= Ordinal(j)
  }

  /** Searching the declaration order finds exactly the first kind in that order. */
  lemma FirstWhereDeclarationOrder(p: NativeAutofillType -> bool)
    ensures FirstWhere(DeclarationOrder, p).None? <==> forall k :: !p(k)
    ensures FirstWhere(DeclarationOrder, p).Some? ==>
              FirstInDeclarationOrder(FirstWhere(DeclarationOrder, p).value, p)
  {
    var r := FirstWhere(DeclarationOrder, p);
    if r.None? {
      forall k ensures !p(k) {
        assert DeclarationOrder[Ordinal(k)] == k;
      }
    } else {
      var i :| 0 <= i < |DeclarationOrder| && DeclarationOrder[i] == r.value && p(r.value)
                && forall j :: 0 <= j < i ==> !p(DeclarationOrder[j]);
      assert Ordinal(r.value) == i;
      forall k | p(k) ensures Ordinal(r.value) <= Ordinal(k) {
        assert DeclarationOrder[Ordinal(k)] == k;
      }
    }
  }
}
