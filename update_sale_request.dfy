/** The validation of a partial sale update: each of seller_id, amount and
    sale_date may be left out, but when it is sent it must be filled in and
    acceptable. A request that passes yields the patch the service applies. */
module UpdateSaleRequest {
  import opened Common
  import opened SaleModel
  import opened SaleService

  /** One request field as it arrives: not sent, sent empty, sent but not of
      the expected kind, or sent with a value. */
  datatype Input<T> = Absent | Empty | Malformed | Given(value: T)

  datatype UpdateInput = UpdateInput(sellerId: Input<nat>, amount: Input<Cents>, saleDate: Input<Date>)

  datatype Field = SellerIdField | AmountField | SaleDateField

  /** The rules of the table, by the name Laravel gives them. */
  datatype Rule = Required | Exists | Numeric | Min | IsDate | BeforeOrEqual

  datatype FieldError = FieldError(field: Field, rule: Rule, message: string)

  /** `authorize`: every user may send the request. */
  function Authorize(): (allowed: bool)
    ensures allowed
  {
    true
  }

  /** The rules the table lists for each field. */
  predicate RuleOf(field: Field, rule: Rule)
  {
    match field
    case SellerIdField => rule in {Required, Exists}
    case AmountField => rule in {Required, Numeric, Min}
    case SaleDateField => rule in {Required, IsDate, BeforeOrEqual}
  }

  /** `seller_id`: sometimes|required|exists:sellers,id. */
  function SellerIdFailure(input: Input<nat>, sellerIds: set<nat>): (r: Option<Rule>)
    ensures r.Some? ==> RuleOf(SellerIdField, r.value)
  {
    match input
    case Absent => None
    case Empty => Some(Required)
    case Malformed => Some(Exists)
    case Given(id) => if id in sellerIds then None else Some(Exists)
  }

  /** `amount`: sometimes|required|numeric|min:0.01, that is at least one cent. */
  function AmountFailure(input: Input<Cents>): (r: Option<Rule>)
    ensures r.Some? ==> RuleOf(AmountField, r.value)
  {
    match input
    case Absent => None
    case Empty => Some(Required)
    case Malformed => Some(Numeric)
    case Given(cents) => if cents >= 1 then None else Some(Min)
  }

  /** `sale_date`: sometimes|required|date|before_or_equal:today. */
  function SaleDateFailure(input: Input<Date>, today: Date): (r: Option<Rule>)
    ensures r.Some? ==> RuleOf(SaleDateField, r.value)
  {
    match input
    case Absent => None
    case Empty => Some(Required)
    case Malformed => Some(IsDate)
    case Given(d) => if d <= today then None else Some(BeforeOrEqual)
  }

  /** `messages`: the text reported for a failed rule of a field. */
  function Message(field: Field, rule: Rule): string
    requires RuleOf(field, rule)
  {
    match (field, rule)
    case (SellerIdField, Required) => "The seller field is required."
    case (SellerIdField, Exists) => "The selected seller does not exist."
    case (AmountField, Required) => "The amount field is required."
    case (AmountField, Numeric) => "The amount must be a number."
    case (AmountField, Min) => "The amount must be at least 0.01."
    case (SaleDateField, Required) => "The sale date field is required."
    case (SaleDateField, IsDate) => "The sale date must be a valid date."
    case (SaleDateField, BeforeOrEqual) => "The sale date must be today or earlier."
  }

  function ErrorOf(field: Field, failure: Option<Rule>): seq<FieldError>
    requires failure.Some? ==> RuleOf(field, failure.value)
  {
    if failure.None? then [] else [FieldError(field, failure.value, Message(field, failure.value))]
  }

  /** The value a sent field contributes to the validated data. */
  function Validated<T>(input: Input<T>): Option<T>
  {
    if input.Given? then Some(input.value) else None
  }

  /** The request passes when no field fails. */
  predicate Acceptable(input: UpdateInput, sellerIds: set<nat>, today: Date)
  {
    && SellerIdFailure(input.sellerId, sellerIds).None?
    && AmountFailure(input.amount).None?
    && SaleDateFailure(input.saleDate, today).None?
  }

  /** Validation of the update: the validated patch, or the errors, one per
      failing field, in the order of the rule table. */
  function Validate(input: UpdateInput, sellerIds: set<nat>, today: Date): (r: Result<SalePatch, seq<FieldError>>)
    ensures r.Ok? <==> Acceptable(input, sellerIds, today)
    ensures r.Ok? ==> r.value == SalePatch(Validated(input.sellerId), Validated(input.amount), None, Validated(input.saleDate))
    ensures r.Ok? ==> r.value.commission.None?
    ensures r.Ok? && r.value.sellerId.Some? ==> r.value.sellerId.value in sellerIds
    ensures r.Ok? && r.value.amount.Some? ==> r.value.amount.value >= 1
    ensures r.Ok? && r.value.saleDate.Some? ==> r.value.saleDate.value <= today
    ensures r.Ok? ==> (r.value.sellerId.Some? <==> input.sellerId.Given?)
                      && (r.value.amount.Some? <==> input.amount.Given?)
                      && (r.value.saleDate.Some? <==> input.saleDate.Given?)
    ensures r.Err? ==> 1 <= |r.error| <= 3
    ensures r.Err? ==> forall e :: e in r.error ==> RuleOf(e.field, e.rule) && e.message == Message(e.field, e.rule)
  {
    var errors := ErrorOf(SellerIdField, SellerIdFailure(input.sellerId, sellerIds))
                  + ErrorOf(AmountField, AmountFailure(input.amount))
                  + ErrorOf(SaleDateField, SaleDateFailure(input.saleDate, today));
    if errors == [] then Ok(SalePatch(Validated(input.sellerId), Validated(input.amount), None, Validated(input.saleDate)))
    else Err(errors)
  }

  /** Every field is optional: a request that sends none passes with an empty patch. */
  lemma NothingSentPasses(sellerIds: set<nat>, today: Date)
    ensures Validate(UpdateInput(Absent, Absent, Absent), sellerIds, today) == Ok(SalePatch(None, None, None, None))
  {
  }

  /** A field sent empty is refused as required, whatever the other fields hold. */
  lemma EmptyFieldRequired(input: UpdateInput, sellerIds: set<nat>, today: Date)
    requires input.amount == Empty
    ensures Validate(input, sellerIds, today).Err?
    ensures FieldError(AmountField, Required, "The amount field is required.") in Validate(input, sellerIds, today).error
  {
  }

  /** The rule field `f` fails, if any. */
  function FailureOf(input: UpdateInput, sellerIds: set<nat>, today: Date, f: Field): Option<Rule>
  {
    match f
    case SellerIdField => SellerIdFailure(input.sellerId, sellerIds)
    case AmountField => AmountFailure(input.amount)
    case SaleDateField => SaleDateFailure(input.saleDate, today)
  }

  /** The errors of one field's failure all name that field and that rule. */
  lemma ErrorOfNamesField(field: Field, failure: Option<Rule>)
    requires failure.Some? ==> RuleOf(field, failure.value)
    ensures forall e :: e in ErrorOf(field, failure) ==> e.field == field && Some(e.rule) == failure
    ensures failure.Some? ==> ErrorOf(field, failure) != []
  {
  }

  /** A field is reported exactly when it fails, with the rule it fails. */
  lemma ErrorsNameFailingFields(input: UpdateInput, sellerIds: set<nat>, today: Date, f: Field)
    requires Validate(input, sellerIds, today).Err?
    ensures var errs := Validate(input, sellerIds, today).error;
            && ((exists e :: e in errs && e.field == f) <==> FailureOf(input, sellerIds, today, f).Some?)
            && (forall e :: e in errs && e.field == f ==> Some(e.rule) == FailureOf(input, sellerIds, today, f))
  {
    var fa, fb, fc := SellerIdFailure(input.sellerId, sellerIds), AmountFailure(input.amount),
                      SaleDateFailure(input.saleDate, today);
    var a, b, c := ErrorOf(SellerIdField, fa), ErrorOf(AmountField, fb), ErrorOf(SaleDateField, fc);
    assert Validate(input, sellerIds, today).error == a + b + c;
    ErrorOfNamesField(SellerIdField, fa);
    ErrorOfNamesField(AmountField, fb);
    ErrorOfNamesField(SaleDateField, fc);
    ThreeFieldErrors(a, b, c, fa, fb, fc, f);
  }

  /** In the errors of the three fields, joined in order, a field appears
      exactly when its failure is some rule, and then with that rule. */
  lemma ThreeFieldErrors(a: seq<FieldError>, b: seq<FieldError>, c: seq<FieldError>,
                         fa: Option<Rule>, fb: Option<Rule>, fc: Option<Rule>, f: Field)
    requires (forall e :: e in a ==> e.field == SellerIdField && Some(e.rule) == fa) && (fa.Some? ==> a != [])
    requires (forall e :: e in b ==> e.field == AmountField && Some(e.rule) == fb) && (fb.Some? ==> b != [])
    requires (forall e :: e in c ==> e.field == SaleDateField && Some(e.rule) == fc) && (fc.Some? ==> c != [])
    ensures var failure := match f case SellerIdField => fa case AmountField => fb case SaleDateField => fc;
            && ((exists e :: e in a + b + c && e.field == f) <==> failure.Some?)
            && (forall e :: e in a + b + c && e.field == f ==> Some(e.rule) == failure)
  {
    var mine: seq<FieldError> := match f case SellerIdField => a case AmountField => b case SaleDateField => c;
    if mine != [] {
      assert mine[0] in a + b + c;
    }
  }

  /** The boundary of the amount rule: 0.01 passes and 0.00 does not. */
  lemma AmountBoundary(sellerIds: set<nat>, today: Date)
    ensures Validate(UpdateInput(Absent, Given(1), Absent), sellerIds, today).Ok?
    ensures Validate(UpdateInput(Absent, Given(0), Absent), sellerIds, today)
            == Err([FieldError(AmountField, Min, "The amount must be at least 0.01.")])
  {
    var e := FieldError(AmountField, Min, "The amount must be at least 0.01.");
    assert [] + [e] + [] == [e];
  }

  /** The boundary of the date rule: today passes and tomorrow does not. */
  lemma DateBoundary(sellerIds: set<nat>, today: Date)
    ensures Validate(UpdateInput(Absent, Absent, Given(today)), sellerIds, today).Ok?
    ensures Validate(UpdateInput(Absent, Absent, Given(today + 1)), sellerIds, today)
            == Err([FieldError(SaleDateField, BeforeOrEqual, "The sale date must be today or earlier.")])
  {
    var e := FieldError(SaleDateField, BeforeOrEqual, "The sale date must be today or earlier.");
    assert [] + [] + [e] == [e];
  }
}
