/**
 * The creation form: its field values, the required-field check that
 * yields one message per missing field, the change handlers that update a
 * field and may clear its message, and the row it inserts.
 */
module CaseStudyForm {
  import opened Records

  datatype FormField =
    | ClientName | Heading | AccountOwner | Content | Mrr
    | Industry | SubIndustry | City | UseCase | AccountSegment | Availability
    | AwsServices

  /** The fields edited in a text box. */
  predicate IsText(field: FormField)
  {
    field in {ClientName, Heading, AccountOwner, Content, Mrr}
  }

  /** The fields edited with a single-choice autocomplete (null when cleared). */
  predicate IsChoice(field: FormField)
  {
    field in {FormField.Industry, FormField.SubIndustry, FormField.City, FormField.UseCase, FormField.AccountSegment, FormField.Availability}
  }

  datatype FormData = FormData(
    clientName: string,
    heading: string,
    accountOwner: string,
    content: string,
    mrr: string,
    industry: Option<string>,
    subIndustry: Option<string>,
    city: Option<string>,
    awsServices: seq<string>,
    useCase: Option<string>,
    accountSegment: Option<string>,
    availability: Option<string>)

  /** The form's state when it opens: empty boxes, no choices, no services. */
  const InitialForm := FormData("", "", "", "", "", None, None, None, [], None, None, None)

  /** The value a field holds, whatever its kind. */
  datatype FieldValue = Text(text: string) | Choice(choice: Option<string>) | Tokens(tokens: seq<string>)

  function Value(d: FormData, field: FormField): FieldValue
  {
    match field
    case ClientName => Text(d.clientName)
    case Heading => Text(d.heading)
    case AccountOwner => Text(d.accountOwner)
    case Content => Text(d.content)
    case Mrr => Text(d.mrr)
    case Industry => Choice(d.industry)
    case SubIndustry => Choice(d.subIndustry)
    case City => Choice(d.city)
    case UseCase => Choice(d.useCase)
    case AccountSegment => Choice(d.accountSegment)
    case Availability => Choice(d.availability)
    case AwsServices => Tokens(d.awsServices)
  }

  // ---------------------------------------------------------------------
  // Validation
  // ---------------------------------------------------------------------

  // The messages `validateForm` sets.
  const ClientNameRequired := "Client Name is required"
  const HeadingRequired := "Heading is required"
  const AccountOwnerRequired := "Account Owner is required"
  const ContentRequired := "Content is required"
  const IndustryRequired := "Industry is required"
  const SubIndustryRequired := "Sub-Industry is required"
  const CityRequired := "City is required"
  const UseCaseRequired := "Use Case is required"
  const AccountSegmentRequired := "Account Segmentation is required"
  const AvailabilityRequired := "Availability is required"
  const AwsServicesRequired := "At least one AWS Service is required"

  /** The message a missing required field gets; the mrr box is optional. */
  function RequiredMessage(field: FormField): Option<string>
  {
    match field
    case ClientName => Some(ClientNameRequired)
    case Heading => Some(HeadingRequired)
    case AccountOwner => Some(AccountOwnerRequired)
    case Content => Some(ContentRequired)
    case Mrr => None
    case Industry => Some(IndustryRequired)
    case SubIndustry => Some(SubIndustryRequired)
    case City => Some(CityRequired)
    case UseCase => Some(UseCaseRequired)
    case AccountSegment => Some(AccountSegmentRequired)
    case Availability => Some(AvailabilityRequired)
    case AwsServices => Some(AwsServicesRequired)
  }

  /** A value with nothing in it: an empty text, a null or empty choice, an empty list. */
  predicate Blank(v: FieldValue)
  {
    match v
    case Text(s) => s == ""
    case Choice(c) => !Truthy(c)
    case Tokens(ts) => |ts| == 0
  }

  /** The condition `validateForm` tests for each field; the mrr box is not tested. */
  predicate Missing(d: FormData, field: FormField)
  {
    match field
    case ClientName => d.clientName == ""
    case Heading => d.heading == ""
    case AccountOwner => d.accountOwner == ""
    case Content => d.content == ""
    case Mrr => false
    case Industry => !Truthy(d.industry)
    case SubIndustry => !Truthy(d.subIndustry)
    case City => !Truthy(d.city)
    case UseCase => !Truthy(d.useCase)
    case AccountSegment => !Truthy(d.accountSegment)
    case Availability => !Truthy(d.availability)
    case AwsServices => |d.awsServices| == 0
  }

  /** The per-field tests are one rule: a field with a message is missing exactly when its value is blank. */
  lemma MissingMeansBlank(d: FormData)
    ensures forall field :: Missing(d, field) <==> RequiredMessage(field).Some? && Blank(Value(d, field))
  {
  }

  /**
   * The `errors` and `formErrors` objects: one optional message per field.
   * A key never set and a key reset to `undefined` read alike, so both are
   * None; only `validateForm` counts keys, on an object it fills with
   * messages alone.
   */
  datatype FormErrors = FormErrors(
    clientName: Option<string>,
    heading: Option<string>,
    accountOwner: Option<string>,
    content: Option<string>,
    mrr: Option<string>,
    industry: Option<string>,
    subIndustry: Option<string>,
    city: Option<string>,
    awsServices: Option<string>,
    useCase: Option<string>,
    accountSegment: Option<string>,
    availability: Option<string>)

  /** `{}` */
  const NoErrors := FormErrors(None, None, None, None, None, None, None, None, None, None, None, None)

  function Message(e: FormErrors, field: FormField): Option<string>
  {
    match field
    case ClientName => e.clientName
    case Heading => e.heading
    case AccountOwner => e.accountOwner
    case Content => e.content
    case Mrr => e.mrr
    case Industry => e.industry
    case SubIndustry => e.subIndustry
    case City => e.city
    case UseCase => e.useCase
    case AccountSegment => e.accountSegment
    case Availability => e.availability
    case AwsServices => e.awsServices
  }

  /** `{ ...prev, [field]: m }` */
  function WithMessage(e: FormErrors, field: FormField, m: Option<string>): (e': FormErrors)
    ensures Message(e', field) == m
    ensures forall g | g != field :: Message(e', g) == Message(e, g)
  {
    match field
    case ClientName => e.(clientName := m)
    case Heading => e.(heading := m)
    case AccountOwner => e.(accountOwner := m)
    case Content => e.(content := m)
    case Mrr => e.(mrr := m)
    case Industry => e.(industry := m)
    case SubIndustry => e.(subIndustry := m)
    case City => e.(city := m)
    case UseCase => e.(useCase := m)
    case AccountSegment => e.(accountSegment := m)
    case Availability => e.(availability := m)
    case AwsServices => e.(awsServices := m)
  }

  /** Whether `formErrors` holds a message for the field (`formErrors[field]` is truthy). */
  predicate HasError(e: FormErrors, field: FormField)
  {
    Truthy(Message(e, field))
  }

  /**
   * Whether the field's input renders its message (`error` and `helperText`
   * bound to `formErrors`): the use case, account segment and availability
   * selectors and the mrr box do not.
   */
  predicate Displays(field: FormField)
  {
    field !in {Mrr, FormField.UseCase, FormField.AccountSegment, FormField.Availability}
  }

  /** A message the user sees under its field. */
  predicate Shown(e: FormErrors, field: FormField)
  {
    Displays(field) && HasError(e, field)
  }

  /** The message one check leaves for its field. */
  function CheckResult(d: FormData, field: FormField): Option<string>
  {
    if Missing(d, field) then RequiredMessage(field) else None
  }

  /** The messages the check should compute: one per missing field, nothing else. */
  function RequiredErrors(d: FormData): (e: FormErrors)
    ensures forall field :: Message(e, field) == CheckResult(d, field)
  {
    FormErrors(
      CheckResult(d, ClientName), CheckResult(d, Heading), CheckResult(d, AccountOwner),
      CheckResult(d, Content), CheckResult(d, Mrr), CheckResult(d, FormField.Industry),
      CheckResult(d, FormField.SubIndustry), CheckResult(d, FormField.City), CheckResult(d, AwsServices),
      CheckResult(d, FormField.UseCase), CheckResult(d, FormField.AccountSegment), CheckResult(d, FormField.Availability))
  }

  /** A message is held exactly for the missing fields; none at all exactly when nothing is missing. */
  lemma RequiredErrorsMeaning(d: FormData)
    ensures forall field :: HasError(RequiredErrors(d), field) <==> Missing(d, field)
    ensures RequiredErrors(d) == NoErrors <==> forall field :: !Missing(d, field)
  {
    var e := RequiredErrors(d);
    forall field ensures HasError(e, field) <==> Missing(d, field) {
      CheckResultMeaning(d, field);
    }
    if e != NoErrors {
      var field :| Message(e, field) != None;
      CheckResultMeaning(d, field);
    }
  }

  /** One check leaves a held message exactly when its field is missing. */
  lemma CheckResultMeaning(d: FormData, field: FormField)
    ensures Truthy(CheckResult(d, field)) <==> Missing(d, field)
    ensures CheckResult(d, field) != None <==> Missing(d, field)
  {
  }

  /** `if (!value) errors.field = message`, as a value: the message when the check fails. */
  function MessageIf(missing: bool, message: string): Option<string>
  {
    if missing then Some(message) else None
  }

  /**
   * `validateForm`: one conditional assignment per required field, then
   * "valid" iff no key was set.
   */
  method ValidateForm(d: FormData) returns (errors: FormErrors, valid: bool)
    ensures errors == RequiredErrors(d)
    ensures valid <==> errors == NoErrors
  {
    errors := NoErrors;
    errors := errors.(clientName := MessageIf(d.clientName == "", ClientNameRequired));
    errors := errors.(heading := MessageIf(d.heading == "", HeadingRequired));
    errors := errors.(accountOwner := MessageIf(d.accountOwner == "", AccountOwnerRequired));
    errors := errors.(content := MessageIf(d.content == "", ContentRequired));
    errors := errors.(industry := MessageIf(!Truthy(d.industry), IndustryRequired));
    errors := errors.(subIndustry := MessageIf(!Truthy(d.subIndustry), SubIndustryRequired));
    errors := errors.(city := MessageIf(!Truthy(d.city), CityRequired));
    errors := errors.(useCase := MessageIf(!Truthy(d.useCase), UseCaseRequired));
    errors := errors.(accountSegment := MessageIf(!Truthy(d.accountSegment), AccountSegmentRequired));
    errors := errors.(availability := MessageIf(!Truthy(d.availability), AvailabilityRequired));
    errors := errors.(awsServices := MessageIf(|d.awsServices| == 0, AwsServicesRequired));
    valid := errors == NoErrors;
  }

  /** With only the client name empty, the client-name message is the only one. */
  lemma OnlyClientNameMissing(d: FormData)
    requires d.clientName == ""
    requires forall field | field != ClientName :: !Missing(d, field)
    ensures RequiredErrors(d) == NoErrors.(clientName := Some(ClientNameRequired))
  {
    assert !Missing(d, Heading) && !Missing(d, AccountOwner) && !Missing(d, Content);
    assert !Missing(d, FormField.Industry) && !Missing(d, FormField.SubIndustry) && !Missing(d, FormField.City);
    assert !Missing(d, FormField.UseCase) && !Missing(d, FormField.AccountSegment) && !Missing(d, FormField.Availability);
    assert !Missing(d, AwsServices);
  }

  /**
   * An untouched form misses every required field, and the check would flag
   * all eleven; pressing "Create" on it is stopped by the browser instead.
   */
  lemma UntouchedFormMissesEverything()
    ensures forall field :: Missing(InitialForm, field) <==> field != Mrr
    ensures forall field :: HasError(RequiredErrors(InitialForm), field) <==> field != Mrr
    ensures Submitted(FormState(InitialForm, NoErrors)) == FormState(InitialForm, NoErrors)
  {
    RequiredErrorsMeaning(InitialForm);
  }

  /** After a check, a message is seen exactly under the missing fields whose input renders it. */
  lemma ShownMeaning(d: FormData)
    ensures forall field :: Shown(RequiredErrors(d), field) <==> Displays(field) && Missing(d, field)
  {
    RequiredErrorsMeaning(d);
  }

  // ---------------------------------------------------------------------
  // Change handlers
  // ---------------------------------------------------------------------

  datatype FormState = FormState(data: FormData, errors: FormErrors)

  /** `if (formErrors[field]) setFormErrors(prev => ({ ...prev, [field]: undefined }))` */
  function ClearError(e: FormErrors, field: FormField): (e': FormErrors)
    ensures !HasError(e', field)
    ensures HasError(e, field) ==> Message(e', field) == None
    ensures !HasError(e, field) ==> e' == e
    ensures forall g | g != field :: Message(e', g) == Message(e, g)
  {
    if HasError(e, field) then WithMessage(e, field, None) else e
  }

  /** `{ ...prev, [field]: value }` for any field. */
  function SetValue(d: FormData, field: FormField, v: FieldValue): (d': FormData)
    requires v.Text? <==> IsText(field)
    requires v.Choice? <==> IsChoice(field)
    ensures Value(d', field) == v
    ensures forall g | g != field :: Value(d', g) == Value(d, g)
  {
    match field
    case ClientName => d.(clientName := v.text)
    case Heading => d.(heading := v.text)
    case AccountOwner => d.(accountOwner := v.text)
    case Content => d.(content := v.text)
    case Mrr => d.(mrr := v.text)
    case Industry => d.(industry := v.choice)
    case SubIndustry => d.(subIndustry := v.choice)
    case City => d.(city := v.choice)
    case UseCase => d.(useCase := v.choice)
    case AccountSegment => d.(accountSegment := v.choice)
    case Availability => d.(availability := v.choice)
    case AwsServices => d.(awsServices := v.tokens)
  }

  /**
   * `handleChange(field)` for the text boxes, and the content box's handler,
   * which does the same: set the field, clear its message if one is held.
   */
  function HandleChange(st: FormState, field: FormField, value: string): FormState
    requires IsText(field)
  {
    FormState(SetValue(st.data, field, Text(value)), ClearError(st.errors, field))
  }

  /** Whether a single-choice selector's handler clears the field's message. */
  predicate ChoiceClearsError(field: FormField)
  {
    field in {FormField.Industry, FormField.SubIndustry, FormField.City}
  }

  /**
   * A single-choice selector's `onChange`: industry, sub-industry and city
   * clear their message; use case, account segment and availability do not.
   */
  function ChangeChoice(st: FormState, field: FormField, value: Option<string>): FormState
    requires IsChoice(field)
  {
    FormState(
      SetValue(st.data, field, Choice(value)),
      if ChoiceClearsError(field) then ClearError(st.errors, field) else st.errors)
  }

  /** The services selector's `onChange`: set the list, clear its message. */
  function ChangeServices(st: FormState, value: seq<string>): FormState
  {
    FormState(SetValue(st.data, AwsServices, Tokens(value)), ClearError(st.errors, AwsServices))
  }

  /** Editing a text box changes that field alone and leaves no message on it. */
  lemma HandleChangeEffect(st: FormState, field: FormField, value: string)
    requires IsText(field)
    ensures Value(HandleChange(st, field, value).data, field) == Text(value)
    ensures forall g | g != field :: Value(HandleChange(st, field, value).data, g) == Value(st.data, g)
    ensures !HasError(HandleChange(st, field, value).errors, field)
    ensures !HasError(st.errors, field) ==> HandleChange(st, field, value).errors == st.errors
    ensures forall g | g != field :: Message(HandleChange(st, field, value).errors, g) == Message(st.errors, g)
  {
  }

  /** The three selectors without a clearing step leave a held message in place. */
  lemma ChoiceKeepsOrClears(st: FormState, field: FormField, value: Option<string>)
    requires IsChoice(field)
    ensures Value(ChangeChoice(st, field, value).data, field) == Choice(value)
    ensures forall g | g != field :: Value(ChangeChoice(st, field, value).data, g) == Value(st.data, g)
    ensures ChoiceClearsError(field) ==> !HasError(ChangeChoice(st, field, value).errors, field)
    ensures !ChoiceClearsError(field) || !HasError(st.errors, field) ==> ChangeChoice(st, field, value).errors == st.errors
    ensures forall g | g != field :: Message(ChangeChoice(st, field, value).errors, g) == Message(st.errors, g)
  {
  }

  lemma ChangeServicesEffect(st: FormState, value: seq<string>)
    ensures Value(ChangeServices(st, value).data, AwsServices) == Tokens(value)
    ensures forall g | g != AwsServices :: Value(ChangeServices(st, value).data, g) == Value(st.data, g)
    ensures !HasError(ChangeServices(st, value).errors, AwsServices)
    ensures !HasError(st.errors, AwsServices) ==> ChangeServices(st, value).errors == st.errors
    ensures forall g | g != AwsServices :: Message(ChangeServices(st, value).errors, g) == Message(st.errors, g)
  {
  }

  /**
   * Were "Use Case is required" held, picking a use case would leave it in
   * `formErrors`, where no input displays it. From the page it is never held:
   * see `PageHoldsOnlyShownMessages`.
   */
  lemma UseCaseMessageIsSticky(d: FormData)
    ensures HasError(ChangeChoice(FormState(d, NoErrors.(useCase := Some(UseCaseRequired))), FormField.UseCase, Some("SAP")).errors, FormField.UseCase)
    ensures !Shown(ChangeChoice(FormState(d, NoErrors.(useCase := Some(UseCaseRequired))), FormField.UseCase, Some("SAP")).errors, FormField.UseCase)
  {
  }

  // ---------------------------------------------------------------------
  // Submission
  // ---------------------------------------------------------------------

  /** The row handed to `insert`, one column per form field plus `created_at`. */
  datatype NewCaseStudy = NewCaseStudy(
    clientName: string,
    heading: string,
    accountOwner: string,
    content: string,
    mrr: Option<int>,
    industry: Option<string>,
    subIndustry: Option<string>,
    city: Option<string>,
    awsServices: seq<string>,
    useCase: Option<string>,
    accountSegment: Option<string>,
    availability: Option<string>,
    createdAt: int)

  /**
   * The insert row. `parse` stands for `parseFloat` of the mrr box and `now`
   * for the submission instant.
   */
  function InsertRow(d: FormData, parse: string -> int, now: int): NewCaseStudy
  {
    NewCaseStudy(
      d.clientName, d.heading, d.accountOwner, d.content,
      if d.mrr != "" then Some(parse(d.mrr)) else None,
      d.industry, d.subIndustry, d.city, d.awsServices,
      d.useCase, d.accountSegment, d.availability,
      now)
  }

  /** The field a form value of the row came from; `Mrr` has no stored text. */
  function InsertedColumn(row: NewCaseStudy, field: FormField): Option<FieldValue>
  {
    match field
    case ClientName => Some(Text(row.clientName))
    case Heading => Some(Text(row.heading))
    case AccountOwner => Some(Text(row.accountOwner))
    case Content => Some(Text(row.content))
    case Mrr => None
    case Industry => Some(Choice(row.industry))
    case SubIndustry => Some(Choice(row.subIndustry))
    case City => Some(Choice(row.city))
    case UseCase => Some(Choice(row.useCase))
    case AccountSegment => Some(Choice(row.accountSegment))
    case Availability => Some(Choice(row.availability))
    case AwsServices => Some(Tokens(row.awsServices))
  }

  /**
   * Every column carries its form field unchanged (services in the same
   * order); mrr is null exactly when its box is empty.
   */
  lemma InsertRowCarriesFields(d: FormData, parse: string -> int, now: int)
    ensures forall field | field != Mrr :: InsertedColumn(InsertRow(d, parse, now), field) == Some(Value(d, field))
    ensures InsertRow(d, parse, now).mrr == None <==> d.mrr == ""
    ensures d.mrr != "" ==> InsertRow(d, parse, now).mrr == Some(parse(d.mrr))
    ensures InsertRow(d, parse, now).createdAt == now
  {
  }

  /** A row built from a form that passed the check has every required column set. */
  lemma ValidFormGivesCompleteRow(d: FormData, parse: string -> int, now: int)
    requires RequiredErrors(d) == NoErrors
    ensures var row := InsertRow(d, parse, now);
      && row.clientName != "" && row.heading != "" && row.accountOwner != "" && row.content != ""
      && Truthy(row.industry) && Truthy(row.subIndustry) && Truthy(row.city)
      && Truthy(row.useCase) && Truthy(row.accountSegment) && Truthy(row.availability)
      && |row.awsServices| > 0
  {
    RequiredErrorsMeaning(d);
    assert !Missing(d, ClientName) && !Missing(d, Heading) && !Missing(d, AccountOwner) && !Missing(d, Content);
    assert !Missing(d, FormField.Industry) && !Missing(d, FormField.SubIndustry) && !Missing(d, FormField.City);
    assert !Missing(d, FormField.UseCase) && !Missing(d, FormField.AccountSegment) && !Missing(d, FormField.Availability);
    assert !Missing(d, AwsServices);
  }

  /** The store's answer to the insert. */
  datatype InsertReply = InsertOk | InsertError(message: string)

  /** The form's `loading`, `error` and `success` state. */
  datatype SubmitStatus = SubmitStatus(loading: bool, error: string, success: bool)

  /**
   * `handleSubmit`: check the form and, only if it passes, insert its row.
   * The returned messages are what `formErrors` becomes on every submit;
   * `inserted` is the row handed to the store, if any.
   */
  method HandleSubmit(d: FormData, prior: SubmitStatus, parse: string -> int, now: int, reply: InsertReply)
    returns (formErrors: FormErrors, status: SubmitStatus, inserted: Option<NewCaseStudy>)
    ensures formErrors == RequiredErrors(d)
    ensures forall field :: HasError(formErrors, field) <==> Missing(d, field)
    ensures inserted.None? <==> exists field :: Missing(d, field)
    ensures inserted.None? ==> status == prior
    ensures inserted.Some? ==> inserted.value == InsertRow(d, parse, now) && !status.loading
    ensures inserted.Some? && reply.InsertOk? ==> status.success && status.error == ""
    ensures inserted.Some? && reply.InsertError? ==> status.success == prior.success && status.error == reply.message
  {
    var valid;
    formErrors, valid := ValidateForm(d);
    RequiredErrorsMeaning(d);
    if !valid {
      return formErrors, prior, None;
    }
    status := prior.(loading := true, error := "");
    var row := InsertRow(d, parse, now);
    inserted := Some(row);
    match reply {
      case InsertOk =>
        status := status.(success := true);
      case InsertError(message) =>
        status := status.(error := message);
    }
    status := status.(loading := false);
  }

  // ---------------------------------------------------------------------
  // The page: the browser's own check, and sequences of edits and submits
  // ---------------------------------------------------------------------

  /**
   * The browser's validation of the inputs marked `required` (the use case,
   * account segment and availability selectors; the form has no
   * `noValidate`): the submit event reaches `handleSubmit` only when none of
   * them is blank.
   */
  predicate NativeCheckPasses(d: FormData)
  {
    !Missing(d, FormField.UseCase) && !Missing(d, FormField.AccountSegment) && !Missing(d, FormField.Availability)
  }

  /**
   * The form state a press of "Create" leaves: unchanged when the browser
   * stops the submit, otherwise `formErrors` set by the check. Whenever the
   * check runs, every message it sets is one its input displays.
   */
  function Submitted(st: FormState): (st': FormState)
    ensures st'.data == st.data
    ensures !NativeCheckPasses(st.data) ==> st' == st
    ensures NativeCheckPasses(st.data) ==> forall field :: HasError(st'.errors, field) <==> Missing(st.data, field)
    ensures NativeCheckPasses(st.data) ==> forall field :: HasError(st'.errors, field) ==> Shown(st'.errors, field)
  {
    if NativeCheckPasses(st.data) then
      RequiredErrorsMeaning(st.data);
      st.(errors := RequiredErrors(st.data))
    else
      st
  }

  /**
   * A press of "Create": stopped by the browser while a `required` selector
   * is blank, otherwise `handleSubmit`.
   */
  method SubmitForm(st: FormState, prior: SubmitStatus, parse: string -> int, now: int, reply: InsertReply)
    returns (st': FormState, status: SubmitStatus, inserted: Option<NewCaseStudy>)
    ensures st' == Submitted(st)
    ensures !NativeCheckPasses(st.data) ==> status == prior && inserted == None
    ensures inserted.None? <==> exists field :: Missing(st.data, field)
    ensures inserted.None? ==> status == prior
    ensures inserted.Some? ==> inserted.value == InsertRow(st.data, parse, now) && !status.loading
    ensures inserted.Some? && reply.InsertOk? ==> status.success && status.error == ""
    ensures inserted.Some? && reply.InsertError? ==> status.success == prior.success && status.error == reply.message
  {
    if !NativeCheckPasses(st.data) {
      return st, prior, None;
    }
    var formErrors;
    formErrors, status, inserted := HandleSubmit(st.data, prior, parse, now, reply);
    st' := st.(errors := formErrors);
  }

  /**
   * A form missing a use case, account segment or availability would fail
   * the check, but the browser stops the submit first: nothing changes.
   */
  lemma NativeCheckBlocksSubmit(st: FormState)
    requires Missing(st.data, FormField.UseCase) || Missing(st.data, FormField.AccountSegment) || Missing(st.data, FormField.Availability)
    ensures RequiredErrors(st.data) != NoErrors
    ensures Submitted(st) == st
  {
    RequiredErrorsMeaning(st.data);
  }

  /** One user action on the form. */
  datatype FormAction =
    | Type(field: FormField, text: string)
    | Pick(field: FormField, choice: Option<string>)
    | PickServices(tokens: seq<string>)
    | Create

  /** The effect of one action; typing into or picking for a field without such an input does nothing. */
  function Step(st: FormState, a: FormAction): FormState
  {
    match a
    case Type(field, text) => if IsText(field) then HandleChange(st, field, text) else st
    case Pick(field, choice) => if IsChoice(field) then ChangeChoice(st, field, choice) else st
    case PickServices(tokens) => ChangeServices(st, tokens)
    case Create => Submitted(st)
  }

  function Run(st: FormState, actions: seq<FormAction>): FormState
    decreases |actions|
  {
    if actions == [] then st else Run(Step(st, actions[0]), actions[1..])
  }

  /** Every held message is displayed under its input. */
  predicate AllShown(e: FormErrors)
  {
    forall field :: HasError(e, field) ==> Shown(e, field)
  }

  /** Clearing at most one message keeps every held message displayed. */
  lemma ClearingKeepsAllShown(e: FormErrors, e': FormErrors, field: FormField)
    requires AllShown(e)
    requires forall g | g != field :: Message(e', g) == Message(e, g)
    requires Message(e', field) == Message(e, field) || !HasError(e', field)
    ensures AllShown(e')
  {
    forall g | HasError(e', g)
      ensures Shown(e', g)
    {
      assert HasError(e, g);
    }
  }

  lemma StepKeepsAllShown(st: FormState, a: FormAction)
    requires AllShown(st.errors)
    ensures AllShown(Step(st, a).errors)
  {
    match a
    case Type(field, text) =>
      if IsText(field) {
        HandleChangeEffect(st, field, text);
        ClearingKeepsAllShown(st.errors, HandleChange(st, field, text).errors, field);
      }
    case Pick(field, choice) =>
      if IsChoice(field) {
        ChoiceKeepsOrClears(st, field, choice);
        ClearingKeepsAllShown(st.errors, ChangeChoice(st, field, choice).errors, field);
      }
    case PickServices(tokens) =>
      ChangeServicesEffect(st, tokens);
      ClearingKeepsAllShown(st.errors, ChangeServices(st, tokens).errors, AwsServices);
    case Create =>
  }

  /** No sequence of actions makes the page hold a message it does not display. */
  lemma {:induction false} RunKeepsAllShown(st: FormState, actions: seq<FormAction>)
    requires AllShown(st.errors)
    ensures AllShown(Run(st, actions).errors)
    decreases |actions|
  {
    if actions != [] {
      StepKeepsAllShown(st, actions[0]);
      RunKeepsAllShown(Step(st, actions[0]), actions[1..]);
    }
  }

  /**
   * Whatever the user types, picks and submits from the opening form, every
   * message the page holds is one it displays: the use case, account segment
   * and availability messages never reach `formErrors`.
   */
  lemma PageHoldsOnlyShownMessages(actions: seq<FormAction>)
    ensures AllShown(Run(FormState(InitialForm, NoErrors), actions).errors)
    ensures !HasError(Run(FormState(InitialForm, NoErrors), actions).errors, FormField.UseCase)
  {
    RunKeepsAllShown(FormState(InitialForm, NoErrors), actions);
  }
}
