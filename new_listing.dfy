/** The form for posting an Exit Board listing: field updates, the validation that
    fills the error map field by field, and the record sent to the listing service.
    `Number(...)` is the parameter `number` (`None` for `NaN`) and the time of
    `new Date(...)` is the parameter `date` (`None` for an invalid date, which compares
    false with everything). The service call itself is not part of this model. */
module NewListing {
  import opened Wrappers
  import opened Text
  import opened ExitBoard

  /** `new Date(text)` as a time value; `None` for an invalid date. */
  type DateParser = string -> Option<int>

  /** The form state `formData`; the housing type is the raw value of its menu, `""`
      until one is chosen. */
  datatype Form = Form(
    city: string,
    state: string,
    neighborhood: string,
    rent: string,
    deposit: string,
    leaseEndDate: string,
    earliestMoveInDate: string,
    bedsBaths: string,
    housingType: string,
    description: string,
    reason: string,
    contact: string,
    confirmTruthful: bool,
    confirmNotVerified: bool
  )

  /** The empty form the page starts with. */
  const EmptyForm: Form := Form("", "", "", "", "", "", "", "", "", "", "", "", false, false)

  /** The inputs of the form, by their `name` attribute. */
  datatype FieldName =
    | City | State | Neighborhood | Rent | Deposit | LeaseEndDate | EarliestMoveInDate
    | BedsBaths | HousingType | Description | Reason | Contact | ConfirmTruthful | ConfirmNotVerified

  /** The two confirmations are checkboxes; every other input carries text. */
  predicate IsCheckbox(f: FieldName) {
    f == ConfirmTruthful || f == ConfirmNotVerified
  }

  /** What an input holds. */
  datatype Input = Text(text: string) | Check(checked: bool)

  /** The value of one field of the form. */
  function Get(form: Form, f: FieldName): (v: Input)
    ensures v.Check? <==> IsCheckbox(f)
  {
    match f
    case City => Text(form.city)
    case State => Text(form.state)
    case Neighborhood => Text(form.neighborhood)
    case Rent => Text(form.rent)
    case Deposit => Text(form.deposit)
    case LeaseEndDate => Text(form.leaseEndDate)
    case EarliestMoveInDate => Text(form.earliestMoveInDate)
    case BedsBaths => Text(form.bedsBaths)
    case HousingType => Text(form.housingType)
    case Description => Text(form.description)
    case Reason => Text(form.reason)
    case Contact => Text(form.contact)
    case ConfirmTruthful => Check(form.confirmTruthful)
    case ConfirmNotVerified => Check(form.confirmNotVerified)
  }

  /** `{ ...prev, [name]: type === "checkbox" ? checked : value }`. */
  function Updated(form: Form, f: FieldName, value: string, checked: bool): Form {
    match f
    case City => form.(city := value)
    case State => form.(state := value)
    case Neighborhood => form.(neighborhood := value)
    case Rent => form.(rent := value)
    case Deposit => form.(deposit := value)
    case LeaseEndDate => form.(leaseEndDate := value)
    case EarliestMoveInDate => form.(earliestMoveInDate := value)
    case BedsBaths => form.(bedsBaths := value)
    case HousingType => form.(housingType := value)
    case Description => form.(description := value)
    case Reason => form.(reason := value)
    case Contact => form.(contact := value)
    case ConfirmTruthful => form.(confirmTruthful := checked)
    case ConfirmNotVerified => form.(confirmNotVerified := checked)
  }

  /** The messages of `validate`, one per failed check. */
  datatype Message =
    | CityRequired | StateRequired | RentPositive | LeaseEndRequired | MoveInRequired | MoveInOrder
    | BedsBathsRequired | HousingTypeRequired | DescriptionRequired | DescriptionTooLong
    | ContactRequired | ContactTooLong | ConfirmTruthfulRequired | ConfirmNotVerifiedRequired

  /** The text each message shows. */
  function MessageText(m: Message): string {
    match m
    case CityRequired => "City is required"
    case StateRequired => "State is required"
    case RentPositive => "Rent must be greater than 0"
    case LeaseEndRequired => "Lease end date is required"
    case MoveInRequired => "Earliest move-in date is required"
    case MoveInOrder => "Move-in date must be before lease end date"
    case BedsBathsRequired => "Bedroom/bath info is required"
    case HousingTypeRequired => "Housing type is required"
    case DescriptionRequired => "Description is required"
    case DescriptionTooLong => "Description must be 500 characters or less"
    case ContactRequired => "Contact info is required"
    case ContactTooLong => "Contact info must be 100 characters or less"
    case ConfirmTruthfulRequired => "You must confirm this listing is truthful"
    case ConfirmNotVerifiedRequired => "You must acknowledge Termsplain does not verify listings"
  }

  /** The rent is missing, not a number, or not positive. */
  predicate BadRent(form: Form, number: NumberParser) {
    form.rent == [] || number(form.rent).None? || number(form.rent).value <= 0
  }

  /** Both dates are set and the move-in date is later than the lease end. */
  predicate MoveInAfterLeaseEnd(form: Form, date: DateParser) {
    && form.earliestMoveInDate != [] && form.leaseEndDate != []
    && date(form.earliestMoveInDate).Some? && date(form.leaseEndDate).Some?
    && date(form.earliestMoveInDate).value > date(form.leaseEndDate).value
  }

  /** The error record of `validate`: one message, or none, per input it checks. The
      neighbourhood, the deposit and the reason are never checked and have no entry. */
  datatype Errors = Errors(
    city: Option<Message>,
    state: Option<Message>,
    rent: Option<Message>,
    leaseEndDate: Option<Message>,
    earliestMoveInDate: Option<Message>,
    bedsBaths: Option<Message>,
    housingType: Option<Message>,
    description: Option<Message>,
    contact: Option<Message>,
    confirmTruthful: Option<Message>,
    confirmNotVerified: Option<Message>
  )

  /** The empty record `{}`. */
  const NoErrors: Errors := Errors(None, None, None, None, None, None, None, None, None, None, None)

  /** `errors[name]`. */
  function ErrorOf(errors: Errors, f: FieldName): Option<Message> {
    match f
    case City => errors.city
    case State => errors.state
    case Rent => errors.rent
    case LeaseEndDate => errors.leaseEndDate
    case EarliestMoveInDate => errors.earliestMoveInDate
    case BedsBaths => errors.bedsBaths
    case HousingType => errors.housingType
    case Description => errors.description
    case Contact => errors.contact
    case ConfirmTruthful => errors.confirmTruthful
    case ConfirmNotVerified => errors.confirmNotVerified
    case Neighborhood => None
    case Deposit => None
    case Reason => None
  }

  /** `delete next[name]`. */
  function Cleared(errors: Errors, f: FieldName): (r: Errors)
    ensures forall g :: ErrorOf(r, g) == if g == f then None else ErrorOf(errors, g)
  {
    match f
    case City => errors.(city := None)
    case State => errors.(state := None)
    case Rent => errors.(rent := None)
    case LeaseEndDate => errors.(leaseEndDate := None)
    case EarliestMoveInDate => errors.(earliestMoveInDate := None)
    case BedsBaths => errors.(bedsBaths := None)
    case HousingType => errors.(housingType := None)
    case Description => errors.(description := None)
    case Contact => errors.(contact := None)
    case ConfirmTruthful => errors.(confirmTruthful := None)
    case ConfirmNotVerified => errors.(confirmNotVerified := None)
    case Neighborhood => errors
    case Deposit => errors
    case Reason => errors
  }

  /** `message` when the check `failed`, else nothing. */
  function Flagged(failed: bool, message: Message): Option<Message> {
    if failed then Some(message) else None
  }

  /** The record `validate` ends with: each input's message from its checks, where the
      later check on the same input wins (a move-in date after the lease end, a text
      over its length limit). */
  function ErrorsOf(form: Form, number: NumberParser, date: DateParser): Errors {
    Errors(
      Flagged(Blank(form.city), CityRequired),
      Flagged(form.state == [], StateRequired),
      Flagged(BadRent(form, number), RentPositive),
      Flagged(form.leaseEndDate == [], LeaseEndRequired),
      if MoveInAfterLeaseEnd(form, date) then Some(MoveInOrder) else Flagged(form.earliestMoveInDate == [], MoveInRequired),
      Flagged(Blank(form.bedsBaths), BedsBathsRequired),
      Flagged(form.housingType == [], HousingTypeRequired),
      if |form.description| > 500 then Some(DescriptionTooLong) else Flagged(Blank(form.description), DescriptionRequired),
      if |form.contact| > 100 then Some(ContactTooLong) else Flagged(Blank(form.contact), ContactRequired),
      Flagged(!form.confirmTruthful, ConfirmTruthfulRequired),
      Flagged(!form.confirmNotVerified, ConfirmNotVerifiedRequired))
  }

  /** Every check of `validate` passes. */
  predicate Valid(form: Form, number: NumberParser, date: DateParser) {
    && !Blank(form.city)
    && form.state != []
    && !BadRent(form, number)
    && form.leaseEndDate != []
    && form.earliestMoveInDate != []
    && !MoveInAfterLeaseEnd(form, date)
    && !Blank(form.bedsBaths)
    && form.housingType != []
    && !Blank(form.description) && |form.description| <= 500
    && !Blank(form.contact) && |form.contact| <= 100
    && form.confirmTruthful && form.confirmNotVerified
  }

  /** The checks of `validate`, in the order written, starting from `{}`. */
  method CollectErrors(form: Form, number: NumberParser, date: DateParser) returns (newErrors: Errors)
    ensures newErrors == ErrorsOf(form, number, date)
  {
    newErrors := NoErrors;
    newErrors := CheckBasics(newErrors, form, number, date);
    newErrors := CheckDates(newErrors, form, number, date);
    newErrors := CheckDetails(newErrors, form, number, date);
    newErrors := CheckContact(newErrors, form, number, date);
  }

  /** The checks of the city, the state, the rent and the lease end. */
  method CheckBasics(errors: Errors, form: Form, number: NumberParser, date: DateParser) returns (r: Errors)
    requires errors.city.None? && errors.state.None? && errors.rent.None? && errors.leaseEndDate.None?
    ensures var spec := ErrorsOf(form, number, date);
            r == errors.(city := spec.city, state := spec.state, rent := spec.rent, leaseEndDate := spec.leaseEndDate)
  {
    r := errors;
    if Blank(form.city) {
      r := r.(city := Some(CityRequired));
    }
    if form.state == [] {
      r := r.(state := Some(StateRequired));
    }
    if form.rent == [] || number(form.rent).None? || number(form.rent).value <= 0 {
      r := r.(rent := Some(RentPositive));
    }
    if form.leaseEndDate == [] {
      r := r.(leaseEndDate := Some(LeaseEndRequired));
    }
  }

  /** The checks of the move-in date: required, and not after the lease end. */
  method CheckDates(errors: Errors, form: Form, number: NumberParser, date: DateParser) returns (r: Errors)
    requires errors.earliestMoveInDate.None?
    ensures r == errors.(earliestMoveInDate := ErrorsOf(form, number, date).earliestMoveInDate)
  {
    r := errors;
    if form.earliestMoveInDate == [] {
      r := r.(earliestMoveInDate := Some(MoveInRequired));
    }
    if form.earliestMoveInDate != [] && form.leaseEndDate != [] {
      var moveIn, leaseEnd := date(form.earliestMoveInDate), date(form.leaseEndDate);
      if moveIn.Some? && leaseEnd.Some? && moveIn.value > leaseEnd.value {
        r := r.(earliestMoveInDate := Some(MoveInOrder));
      }
    }
  }

  /** The checks of the rooms, the housing type and the description. */
  method CheckDetails(errors: Errors, form: Form, number: NumberParser, date: DateParser) returns (r: Errors)
    requires errors.bedsBaths.None? && errors.housingType.None? && errors.description.None?
    ensures var spec := ErrorsOf(form, number, date);
            r == errors.(bedsBaths := spec.bedsBaths, housingType := spec.housingType, description := spec.description)
  {
    r := errors;
    if Blank(form.bedsBaths) {
      r := r.(bedsBaths := Some(BedsBathsRequired));
    }
    if form.housingType == [] {
      r := r.(housingType := Some(HousingTypeRequired));
    }
    if Blank(form.description) {
      r := r.(description := Some(DescriptionRequired));
    }
    if |form.description| > 500 {
      r := r.(description := Some(DescriptionTooLong));
    }
  }

  /** The checks of the contact and of the two confirmations. */
  method CheckContact(errors: Errors, form: Form, number: NumberParser, date: DateParser) returns (r: Errors)
    requires errors.contact.None? && errors.confirmTruthful.None? && errors.confirmNotVerified.None?
    ensures var spec := ErrorsOf(form, number, date);
            r == errors.(contact := spec.contact, confirmTruthful := spec.confirmTruthful,
                         confirmNotVerified := spec.confirmNotVerified)
  {
    r := errors;
    if Blank(form.contact) {
      r := r.(contact := Some(ContactRequired));
    }
    if |form.contact| > 100 {
      r := r.(contact := Some(ContactTooLong));
    }
    if !form.confirmTruthful {
      r := r.(confirmTruthful := Some(ConfirmTruthfulRequired));
    }
    if !form.confirmNotVerified {
      r := r.(confirmNotVerified := Some(ConfirmNotVerifiedRequired));
    }
  }

  /** Where two checks write the same input, the later one wins: an over-long text is
      reported as too long even when it is blank, and the order check on the move-in
      date only fires when the date is set. */
  lemma LaterCheckWins(form: Form, number: NumberParser, date: DateParser)
    ensures var e := ErrorsOf(form, number, date);
            && (e.description == Some(DescriptionTooLong) <==> |form.description| > 500)
            && (e.description == Some(DescriptionRequired) <==> |form.description| <= 500 && Blank(form.description))
            && (e.contact == Some(ContactTooLong) <==> |form.contact| > 100)
            && (e.contact == Some(ContactRequired) <==> |form.contact| <= 100 && Blank(form.contact))
            && (e.earliestMoveInDate == Some(MoveInOrder) <==> MoveInAfterLeaseEnd(form, date))
            && (e.earliestMoveInDate == Some(MoveInRequired) <==> form.earliestMoveInDate == [])
  {
  }

  /** The record is empty exactly when every check passes. */
  lemma NoErrorsIffValid(form: Form, number: NumberParser, date: DateParser)
    ensures ErrorsOf(form, number, date) == NoErrors <==> Valid(form, number, date)
  {
  }

  /** The record passed to `createListing`. `deposit` is `None` for `null`, and
      `Some(None)` for a deposit that is not a number. */
  datatype Payload = Payload(
    city: string,
    state: string,
    neighborhood: Option<string>,
    rent: Option<int>,
    deposit: Option<Option<int>>,
    leaseEndDate: string,
    earliestMoveInDate: string,
    bedsBaths: string,
    housingType: string,
    description: string,
    reason: Option<string>,
    contact: string
  )

  /** `text.trim() || null`. */
  function TrimmedOrNull(text: string): (r: Option<string>)
    ensures r.None? <==> AllSpace(text, 0, |text|)
    ensures r.Some? ==> r.value == Trim(text)
  {
    if Trim(text) == [] then None else Some(Trim(text))
  }

  /** The payload built in `handleSubmit`. */
  function BuildPayload(form: Form, number: NumberParser): Payload {
    Payload(
      Trim(form.city),
      form.state,
      TrimmedOrNull(form.neighborhood),
      number(form.rent),
      if form.deposit != [] then Some(number(form.deposit)) else None,
      form.leaseEndDate,
      form.earliestMoveInDate,
      Trim(form.bedsBaths),
      form.housingType,
      Trim(form.description),
      TrimmedOrNull(form.reason),
      Trim(form.contact))
  }

  /** The page's state: the form, the error map and the submission error. */
  class NewListingPage {
    var form: Form
    var errors: Errors
    var submitError: string

    constructor ()
      ensures form == EmptyForm && errors == NoErrors && submitError == ""
    {
      form := EmptyForm;
      errors := NoErrors;
      submitError := "";
    }

    /** `handleChange`: the field takes the new value and loses its error, if any. */
    method HandleChange(f: FieldName, value: string, checked: bool)
      modifies this
      ensures form == Updated(old(form), f, value, checked)
      ensures forall g :: ErrorOf(errors, g) == if g == f then None else ErrorOf(old(errors), g)
      ensures submitError == old(submitError)
    {
      form := Updated(form, f, value, checked);
      if ErrorOf(errors, f).Some? {
        errors := Cleared(errors, f);
      }
    }

    /** `validate()`: the error record is replaced, and the form is valid when it is
        empty. */
    method Validate(number: NumberParser, date: DateParser) returns (ok: bool)
      modifies this
      ensures errors == ErrorsOf(form, number, date)
      ensures ok <==> Valid(form, number, date)
      ensures ok <==> errors == NoErrors
      ensures form == old(form) && submitError == old(submitError)
    {
      var newErrors := CollectErrors(form, number, date);
      errors := newErrors;
      NoErrorsIffValid(form, number, date);
      return errors == NoErrors;
    }

    /** `handleSubmit` up to the service call: the submission error is cleared, and a
        valid form gives the payload to send. */
    method HandleSubmit(number: NumberParser, date: DateParser) returns (payload: Option<Payload>)
      modifies this
      ensures submitError == ""
      ensures errors == ErrorsOf(form, number, date)
      ensures payload.Some? <==> Valid(form, number, date)
      ensures payload.Some? ==> payload.value == BuildPayload(form, number)
      ensures form == old(form)
    {
      submitError := "";
      var ok := Validate(number, date);
      if !ok {
        return None;
      }
      return Some(BuildPayload(form, number));
    }
  }

  // ------------------------------------------------------------------ lemmas

  /** A change touches its own field only. */
  lemma UpdatedTouchesOneField(form: Form, f: FieldName, value: string, checked: bool, g: FieldName)
    ensures Get(Updated(form, f, value, checked), f) == if IsCheckbox(f) then Check(checked) else Text(value)
    ensures g != f ==> Get(Updated(form, f, value, checked), g) == Get(form, g)
  {
  }

  /** The payload of a valid form: trimmed, non-empty required text, a positive rent,
      a description and contact within their limits, and a move-in date not after the
      lease end when both are dates. */
  lemma ValidPayload(form: Form, number: NumberParser, date: DateParser)
    requires Valid(form, number, date)
    ensures var p := BuildPayload(form, number);
            && p.city != [] && NoOuterSpace(p.city)
            && p.state != [] && p.housingType != []
            && p.rent.Some? && p.rent.value > 0
            && p.bedsBaths != [] && p.description != [] && p.contact != []
            && |p.description| <= 500 && |p.contact| <= 100
            && (date(p.earliestMoveInDate).Some? && date(p.leaseEndDate).Some? ==>
                  date(p.earliestMoveInDate).value <= date(p.leaseEndDate).value)
  {
  }

  /** Equal dates are accepted. */
  lemma SameDayAccepted(form: Form, date: DateParser)
    requires form.earliestMoveInDate == form.leaseEndDate
    ensures !MoveInAfterLeaseEnd(form, date)
  {
  }

  /** Blank optional text becomes `null`, and an empty deposit too. */
  lemma BlankOptionalsAreNull(form: Form, number: NumberParser)
    requires AllSpace(form.neighborhood, 0, |form.neighborhood|) && AllSpace(form.reason, 0, |form.reason|)
    requires form.deposit == []
    ensures BuildPayload(form, number).neighborhood.None?
    ensures BuildPayload(form, number).reason.None?
    ensures BuildPayload(form, number).deposit.None?
  {
  }
}
