/** Per-kind collection of fill candidates and their assembly into the ordered
    list of datasets handed back to the platform. */
module Response {
  import opened Optional
  import opened AutofillType
  import opened Classifier

  /** One candidate: the node to fill, the value, and the label shown to the user. */
  datatype SingleFieldResponse = SingleFieldResponse(nodeId: AutofillId, value: string, displayString: string)

  /** A candidate whose label defaults to its value when none is given. */
  function SimpleResponse(id: AutofillId, value: string, displayString: Option<string>): SingleFieldResponse {
    SingleFieldResponse(id, value, displayString.GetOr(value))
  }

  const FullNameValue: string := "Craig Russell"
  const TelephoneValue: string := "+447891234567"
  const WorkEmailValue: string := "craig@foo.com"
  const PersonalEmailValue: string := "craig@example.com"
  const CreditCardNumberValue: string := "012345678910"
  const CreditCardExpiryValue: string := "0123"
  const CreditCardSecurityCodeValue: string := "987"

  /** The candidates one leaf of kind `kind` contributes, in the order they are added. */
  function ResponsesFor(id: AutofillId, kind: NativeAutofillType): (r: seq<SingleFieldResponse>)
    ensures |r| == (match kind case Unknown => 0 case EmailAddress => 2 case _ => 1)
    ensures forall e :: e in r ==> e.nodeId == id && ValueKind(e.value) == kind
    ensures kind == NameFull ==> r[0].displayString == r[0].value
    ensures kind == EmailAddress ==> r[0].value == WorkEmailValue && r[1].value == PersonalEmailValue
  {
    match kind
    case Unknown => []
    case NameFull => [SimpleResponse(id, FullNameValue, None)]
    case TelephoneFull =>
      [SimpleResponse(id, TelephoneValue, Some("Work phone (+447891234567)"))]
    case EmailAddress =>
      [SimpleResponse(id, WorkEmailValue, Some("Work email (craig@foo.com)")),
       SimpleResponse(id, PersonalEmailValue, Some("Personal email (craig@example.com)"))]
    case CreditCardNumber =>
      [SimpleResponse(id, CreditCardNumberValue, Some("Work credit card"))]
    case CreditCardExpiry =>
      [SimpleResponse(id, CreditCardExpiryValue, Some("Work credit card expiry"))]
    case CreditCardSecurityCode =>
      [SimpleResponse(id, CreditCardSecurityCodeValue, Some("Work credit card cvc"))]
  }

  /** The kind a candidate value was produced for; every kind uses its own values. */
  function ValueKind(value: string): NativeAutofillType {
    if value == FullNameValue then NameFull
    else if value == TelephoneValue then TelephoneFull
    else if value == WorkEmailValue || value == PersonalEmailValue then EmailAddress
    else if value == CreditCardNumberValue then CreditCardNumber
    else if value == CreditCardExpiryValue then CreditCardExpiry
    else if value == CreditCardSecurityCodeValue then CreditCardSecurityCode
    else Unknown
  }

  /** The per-kind buckets filled during traversal.  The full name is a single
      slot, every other kind a list. */
  datatype OurAutofillResponse = OurAutofillResponse(
    creditCardNumber: seq<SingleFieldResponse>,
    emailAddress: seq<SingleFieldResponse>,
    fullName: Option<SingleFieldResponse>,
    telephoneNumber: seq<SingleFieldResponse>,
    creditCardExpiry: seq<SingleFieldResponse>,
    creditCardSecurityCode: seq<SingleFieldResponse>)

  const EmptyResponse: OurAutofillResponse := OurAutofillResponse([], [], None, [], [], [])

  /** The kinds collected in a list bucket. */
  predicate IsListKind(k: NativeAutofillType) {
    k != NameFull && k != Unknown
  }

  /** The list bucket of a list kind. */
  function Bucket(r: OurAutofillResponse, k: NativeAutofillType): seq<SingleFieldResponse>
    requires IsListKind(k)
  {
    match k
    case CreditCardNumber => r.creditCardNumber
    case EmailAddress => r.emailAddress
    case TelephoneFull => r.telephoneNumber
    case CreditCardExpiry => r.creditCardExpiry
    case CreditCardSecurityCode => r.creditCardSecurityCode
  }

  /** Records the candidates for one classified leaf: nothing for `Unknown`, the
      full-name slot is overwritten, every other kind appends to its list. */
  function AddAutofillResponseForNode(r: OurAutofillResponse, id: AutofillId, kind: NativeAutofillType): (r': OurAutofillResponse)
    ensures kind == Unknown ==> r' == r
    ensures forall k :: IsListKind(k) ==>
              Bucket(r', k) == Bucket(r, k) + (if k == kind then ResponsesFor(id, kind) else [])
    ensures r'.fullName == (if kind == NameFull then Some(ResponsesFor(id, NameFull)[0]) else r.fullName)
  {
    match kind
    case Unknown => r
    case NameFull => r.(fullName := Some(ResponsesFor(id, kind)[0]))
    case TelephoneFull => r.(telephoneNumber := r.telephoneNumber + ResponsesFor(id, kind))
    case EmailAddress => r.(emailAddress := r.emailAddress + ResponsesFor(id, kind))
    case CreditCardNumber => r.(creditCardNumber := r.creditCardNumber + ResponsesFor(id, kind))
    case CreditCardExpiry => r.(creditCardExpiry := r.creditCardExpiry + ResponsesFor(id, kind))
    case CreditCardSecurityCode =>
      r.(creditCardSecurityCode := r.creditCardSecurityCode + ResponsesFor(id, kind))
  }

  /** The buckets in the order datasets are added: email, card number, full
      name, card expiry, card security code, telephone. */
  function Assemble(r: OurAutofillResponse): seq<SingleFieldResponse> {
    r.emailAddress + r.creditCardNumber + r.fullName.ToSeq() + r.creditCardExpiry
      + r.creditCardSecurityCode + r.telephoneNumber
  }

  /** Every bucket is empty. */
  predicate NothingCollected(r: OurAutofillResponse) {
    && r.emailAddress == [] && r.creditCardNumber == [] && r.fullName.None?
    && r.creditCardExpiry == [] && r.creditCardSecurityCode == [] && r.telephoneNumber == []
  }

  /** The datasets of the fill response, or no response when no dataset was added. */
  function BuildFillResponse(r: OurAutofillResponse): (out: Option<seq<SingleFieldResponse>>)
    ensures out.None? <==> NothingCollected(r)
    ensures out.Some? ==> out.value == Assemble(r) && |out.value| > 0
  {
    var datasets := Assemble(r);
    if |datasets| > 0 then Some(datasets) else None
  }
}
