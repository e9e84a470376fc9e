/** The visitor's registration form for one event: validation, error clearing, submission. */
module RegisterEventPage {
  import opened Wrappers
  import JsText
  import opened Forms

  datatype Form = Form(name: string, email: string, mobile: string, message: string)

  const EmptyForm: Form := Form("", "", "", "")

  /** The inputs of the form, by their `name` attribute. */
  datatype Field = Name | Email | Mobile | Message

  function Key(f: Field): string {
    match f
    case Name => "name"
    case Email => "email"
    case Mobile => "mobile"
    case Message => "message"
  }

  /** "Mobile number is required" when blank, else "Mobile number must be 10 digits" unless it is exactly ten digits. */
  function MobileError(mobile: string): (e: Option<string>)
    ensures e.None? <==> JsText.IsTenDigits(mobile)
    ensures e == Some("Mobile number is required") <==> JsText.IsBlank(mobile)
    ensures e == Some("Mobile number must be 10 digits") <==> !JsText.IsBlank(mobile) && !JsText.IsTenDigits(mobile)
  {
    JsText.TenDigitsIsNotBlank(mobile);
    if JsText.IsBlank(mobile) then Some("Mobile number is required")
    else if !JsText.IsTenDigits(mobile) then Some("Mobile number must be 10 digits")
    else None
  }

  /** The error map from the three checks' outcomes, each under its field's name. */
  function Messages(nameError: Option<string>, emailError: Option<string>, mobileError: Option<string>): (errors: ErrorMap)
    ensures errors.Keys <= {"name", "email", "mobile"}
    ensures "name" in errors <==> nameError.Some?
    ensures "name" in errors ==> Some(errors["name"]) == nameError
    ensures "email" in errors <==> emailError.Some?
    ensures "email" in errors ==> Some(errors["email"]) == emailError
    ensures "mobile" in errors <==> mobileError.Some?
    ensures "mobile" in errors ==> Some(errors["mobile"]) == mobileError
  {
    var checks := [("name", nameError), ("email", emailError), ("mobile", mobileError)];
    assert checks[0].0 == "name" && checks[1].0 == "email" && checks[2].0 == "mobile";
    Collect(checks)
  }

  /** `validateForm`: each field's message from its own check, the message never checked. */
  function Validate(f: Form): (errors: ErrorMap)
    ensures errors.Keys <= {"name", "email", "mobile"}
    ensures "name" in errors <==> Required(f.name, "Name is required").Some?
    ensures "name" in errors ==> errors["name"] == "Name is required"
    ensures "email" in errors <==> EmailError(f.email).Some?
    ensures "email" in errors ==> Some(errors["email"]) == EmailError(f.email)
    ensures "mobile" in errors <==> MobileError(f.mobile).Some?
    ensures "mobile" in errors ==> Some(errors["mobile"]) == MobileError(f.mobile)
  {
    Messages(Required(f.name, "Name is required"), EmailError(f.email), MobileError(f.mobile))
  }

  /** A field has a message exactly when it fails its rule. */
  lemma ValidateReports(f: Form)
    ensures "name" in Validate(f) <==> JsText.IsBlank(f.name)
    ensures "email" in Validate(f) <==> !JsText.IsEmailLike(f.email)
    ensures "mobile" in Validate(f) <==> !JsText.IsTenDigits(f.mobile)
  {
    JsText.BlankIffAllWhiteSpace(f.name);
  }

  /** A form the page sends: a name, an address the pattern accepts, ten digits. */
  predicate Acceptable(f: Form) {
    !JsText.IsBlank(f.name) && JsText.IsEmailLike(f.email) && JsText.IsTenDigits(f.mobile)
  }

  lemma ValidateEmptyIffAcceptable(f: Form)
    ensures |Validate(f)| == 0 <==> Acceptable(f)
  {
    ValidateReports(f);
    NoMessageIffAllPass(Validate(f), JsText.IsBlank(f.name), !JsText.IsEmailLike(f.email), !JsText.IsTenDigits(f.mobile));
  }

  lemma NoMessageIffAllPass(errors: ErrorMap, nameFails: bool, emailFails: bool, mobileFails: bool)
    requires errors.Keys <= {"name", "email", "mobile"}
    requires "name" in errors <==> nameFails
    requires "email" in errors <==> emailFails
    requires "mobile" in errors <==> mobileFails
    ensures |errors| == 0 <==> !nameFails && !emailFails && !mobileFails
  {
    if !nameFails && !emailFails && !mobileFails {
      assert errors.Keys == {};
    }
  }

  /** The request body: the four form fields and the event id from the route. */
  datatype Payload = Payload(name: string, email: string, mobile: string, message: string, eventId: string)

  /** The page's state: the form, the error map shown beside the inputs, and the status line. */
  datatype State = State(form: Form, errors: ErrorMap, status: string)

  /**
   * `handleChange`: stores the typed value and sets that field's message
   * to "", which hides it; the other messages stay.
   */
  function Change(s: State, field: Field, value: string): (t: State)
    ensures Key(field) in t.errors && t.errors[Key(field)] == ""
    ensures forall k :: k in s.errors && k != Key(field) ==> k in t.errors && t.errors[k] == s.errors[k]
    ensures forall k :: k in t.errors && k != Key(field) ==> k in s.errors
    ensures field == Name ==> t.form == s.form.(name := value)
    ensures field == Email ==> t.form == s.form.(email := value)
    ensures field == Mobile ==> t.form == s.form.(mobile := value)
    ensures field == Message ==> t.form == s.form.(message := value)
  {
    var form := match field
      case Name => s.form.(name := value)
      case Email => s.form.(email := value)
      case Mobile => s.form.(mobile := value)
      case Message => s.form.(message := value);
    State(form, s.errors[Key(field) := ""], s.status)
  }

  /** What confirming the modal sends, if anything. */
  function Submit(f: Form, eventId: string): (r: Submission<Payload>)
    ensures r.Sent? <==> Acceptable(f)
    ensures r.Blocked? ==> r.errors == Validate(f) && |r.errors| > 0
    ensures r.Sent? ==> r.payload == Payload(f.name, f.email, f.mobile, f.message, eventId)
  {
    ValidateEmptyIffAcceptable(f);
    Gate(Validate(f), Payload(f.name, f.email, f.mobile, f.message, eventId))
  }

  const SuccessStatus: string := "\U{2705} Registration successful! Please check your email."
  const FailureStatus: string := "\U{274C} Registration failed. Please try again."

  /**
   * `handleSubmit`, with `accepted` standing for whether the server took the
   * request: a blocked submit shows the errors; a sent one resets the form on
   * success and keeps it on failure. The error map is not cleared on success.
   */
  function HandleSubmit(s: State, eventId: string, accepted: bool): (t: State)
    ensures !Acceptable(s.form) ==> t == State(s.form, Validate(s.form), "")
    ensures Acceptable(s.form) && accepted ==> t == State(EmptyForm, s.errors, SuccessStatus)
    ensures Acceptable(s.form) && !accepted ==> t == State(s.form, s.errors, FailureStatus)
  {
    match Submit(s.form, eventId)
    case Blocked(errors) => State(s.form, errors, "")
    case Sent(_) => if accepted then State(EmptyForm, s.errors, SuccessStatus) else State(s.form, s.errors, FailureStatus)
  }

  /** The empty form is refused, with all three messages. */
  lemma EmptyFormIsRefused()
    ensures Validate(EmptyForm) == map["name" := "Name is required", "email" := "Email is required",
                                       "mobile" := "Mobile number is required"]
  {
    JsText.BlankIffAllWhiteSpace(EmptyForm.name);
  }

  /** The form filled as a visitor would is sent as typed, with the event id from the route. */
  lemma FilledFormIsSent()
    ensures Submit(Form("Ram", "ram@example.com", "9876543210", ""), "abc123")
         == Sent(Payload("Ram", "ram@example.com", "9876543210", "", "abc123"))
  {
    var f := Form("Ram", "ram@example.com", "9876543210", "");
    JsText.NotBlankWhenSomeNonSpace(f.name, 0);
    assert f.email[3] == '@' && f.email[11] == '.' && !JsText.IsWhiteSpace(f.email[2]);
    assert JsText.NoWhiteSpace(f.email[4..13]);
    assert JsText.EmailMatchAt(f.email, 3, 11);
    assert JsText.IsTenDigits(f.mobile);
    assert Acceptable(f);
  }
}
