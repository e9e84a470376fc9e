/** The contact form: three checks, and the reset after a message is sent. */
module ContactPage {
  import opened Wrappers
  import JsText
  import opened Forms

  datatype Form = Form(name: string, email: string, message: string)

  const EmptyForm: Form := Form("", "", "")

  /** The error map from the three checks' outcomes, each under its field's name. */
  function Messages(nameError: Option<string>, emailError: Option<string>, messageError: Option<string>): (errors: ErrorMap)
    ensures errors.Keys <= {"name", "email", "message"}
    ensures "name" in errors <==> nameError.Some?
    ensures "name" in errors ==> Some(errors["name"]) == nameError
    ensures "email" in errors <==> emailError.Some?
    ensures "email" in errors ==> Some(errors["email"]) == emailError
    ensures "message" in errors <==> messageError.Some?
    ensures "message" in errors ==> Some(errors["message"]) == messageError
  {
    var checks := [("name", nameError), ("email", emailError), ("message", messageError)];
    assert checks[0].0 == "name" && checks[1].0 == "email" && checks[2].0 == "message";
    Collect(checks)
  }

  /** `validateForm`. */
  function Validate(f: Form): (errors: ErrorMap)
    ensures errors.Keys <= {"name", "email", "message"}
    ensures "name" in errors <==> Required(f.name, "Name is required").Some?
    ensures "name" in errors ==> errors["name"] == "Name is required"
    ensures "email" in errors <==> EmailError(f.email).Some?
    ensures "email" in errors ==> Some(errors["email"]) == EmailError(f.email)
    ensures "message" in errors <==> Required(f.message, "Message is required").Some?
    ensures "message" in errors ==> errors["message"] == "Message is required"
  {
    Messages(Required(f.name, "Name is required"), EmailError(f.email), Required(f.message, "Message is required"))
  }

  /** A field has a message exactly when it fails its rule. */
  lemma ValidateReports(f: Form)
    ensures "name" in Validate(f) <==> JsText.IsBlank(f.name)
    ensures "email" in Validate(f) <==> !JsText.IsEmailLike(f.email)
    ensures "message" in Validate(f) <==> JsText.IsBlank(f.message)
  {
    JsText.BlankIffAllWhiteSpace(f.name);
    JsText.BlankIffAllWhiteSpace(f.message);
  }

  predicate Acceptable(f: Form) {
    !JsText.IsBlank(f.name) && JsText.IsEmailLike(f.email) && !JsText.IsBlank(f.message)
  }

  lemma ValidateEmptyIffAcceptable(f: Form)
    ensures |Validate(f)| == 0 <==> Acceptable(f)
  {
    ValidateReports(f);
    NoMessageIffAllPass(Validate(f), JsText.IsBlank(f.name), !JsText.IsEmailLike(f.email), JsText.IsBlank(f.message));
  }

  lemma NoMessageIffAllPass(errors: ErrorMap, nameFails: bool, emailFails: bool, messageFails: bool)
    requires errors.Keys <= {"name", "email", "message"}
    requires "name" in errors <==> nameFails
    requires "email" in errors <==> emailFails
    requires "message" in errors <==> messageFails
    ensures |errors| == 0 <==> !nameFails && !emailFails && !messageFails
  {
    if !nameFails && !emailFails && !messageFails {
      assert errors.Keys == {};
    }
  }

  datatype State = State(form: Form, errors: ErrorMap)

  /**
   * `handleSubmit`, with `accepted` standing for whether the server stored
   * the message: a refused form shows its messages; a sent one is cleared,
   * messages too; a failed send keeps everything.
   */
  function HandleSubmit(s: State, accepted: bool): (t: State)
    ensures !Acceptable(s.form) ==> t == State(s.form, Validate(s.form)) && |t.errors| > 0
    ensures Acceptable(s.form) && accepted ==> t == State(EmptyForm, map[])
    ensures Acceptable(s.form) && !accepted ==> t == s
  {
    ValidateEmptyIffAcceptable(s.form);
    match Gate(Validate(s.form), s.form)
    case Blocked(errors) => State(s.form, errors)
    case Sent(_) => if accepted then State(EmptyForm, map[]) else s
  }

  /** After a message is sent the form is empty, so sending it again at once is refused. */
  lemma ResetFormIsRefused(s: State)
    requires Acceptable(s.form)
    ensures !Acceptable(HandleSubmit(s, true).form)
  {
    JsText.BlankIffAllWhiteSpace(EmptyForm.name);
  }
}
