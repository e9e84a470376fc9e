/** The admin sign-up form: one else-if chain per field, and the reset after a successful sign-up. */
module AdminRegisterPage {
  import opened Wrappers
  import JsText
  import opened Forms

  datatype Form = Form(name: string, username: string, email: string, password: string)

  const EmptyForm: Form := Form("", "", "", "")

  /**
   * "required" when blank, else the minimum-length message when shorter
   * than `min`; the length is that of the untrimmed text.
   */
  function MinLengthError(value: string, min: nat, requiredMessage: string, shortMessage: string): (e: Option<string>)
    ensures e.None? <==> !JsText.IsBlank(value) && |value| >= min
    ensures e == Some(requiredMessage) <== JsText.IsBlank(value)
    ensures !JsText.IsBlank(value) && |value| < min ==> e == Some(shortMessage)
  {
    if JsText.IsBlank(value) then Some(requiredMessage)
    else if |value| < min then Some(shortMessage)
    else None
  }

  /** `/[A-Z]/` and `/\d/` both match. */
  predicate HasUpperAndDigit(p: string) {
    JsText.HasUpper(p) && JsText.HasDigit(p)
  }

  const PasswordRuleMessage: string := "Password must include at least one uppercase letter and one number"

  /** The password chain: required, then at least 6 characters, then an upper-case letter and a digit. */
  function PasswordError(password: string): (e: Option<string>)
    ensures e.None? <==> |password| >= 6 && HasUpperAndDigit(password)
    ensures JsText.IsBlank(password) ==> e == Some("Password is required")
    ensures !JsText.IsBlank(password) && |password| < 6 ==> e == Some("Password must be at least 6 characters")
    ensures !JsText.IsBlank(password) && |password| >= 6 && !HasUpperAndDigit(password) ==> e == Some(PasswordRuleMessage)
  {
    JsText.UpperIsNotBlank(password);
    if JsText.IsBlank(password) then Some("Password is required")
    else if |password| < 6 then Some("Password must be at least 6 characters")
    else if !HasUpperAndDigit(password) then Some(PasswordRuleMessage)
    else None
  }

  /** The error map from the four chains' outcomes, each under its field's name. */
  function Messages(nameError: Option<string>, usernameError: Option<string>, emailError: Option<string>,
                    passwordError: Option<string>): (errors: ErrorMap)
    ensures errors.Keys <= {"name", "username", "email", "password"}
    ensures "name" in errors <==> nameError.Some?
    ensures "name" in errors ==> Some(errors["name"]) == nameError
    ensures "username" in errors <==> usernameError.Some?
    ensures "username" in errors ==> Some(errors["username"]) == usernameError
    ensures "email" in errors <==> emailError.Some?
    ensures "email" in errors ==> Some(errors["email"]) == emailError
    ensures "password" in errors <==> passwordError.Some?
    ensures "password" in errors ==> Some(errors["password"]) == passwordError
  {
    var checks := [("name", nameError), ("username", usernameError), ("email", emailError), ("password", passwordError)];
    assert checks[0].0 == "name" && checks[1].0 == "username" && checks[2].0 == "email" && checks[3].0 == "password";
    Collect(checks)
  }

  /** `validateForm`: at most one message per field, the first check of its chain that fails. */
  function Validate(f: Form): (errors: ErrorMap)
    ensures errors.Keys <= {"name", "username", "email", "password"}
    ensures "name" in errors <==> MinLengthError(f.name, 2, "Name is required", "Name must be at least 2 characters").Some?
    ensures "name" in errors ==> Some(errors["name"]) == MinLengthError(f.name, 2, "Name is required", "Name must be at least 2 characters")
    ensures "username" in errors <==> MinLengthError(f.username, 4, "Username is required", "Username must be at least 4 characters").Some?
    ensures "username" in errors ==> Some(errors["username"]) == MinLengthError(f.username, 4, "Username is required", "Username must be at least 4 characters")
    ensures "email" in errors <==> EmailError(f.email).Some?
    ensures "email" in errors ==> Some(errors["email"]) == EmailError(f.email)
    ensures "password" in errors <==> PasswordError(f.password).Some?
    ensures "password" in errors ==> Some(errors["password"]) == PasswordError(f.password)
  {
    Messages(MinLengthError(f.name, 2, "Name is required", "Name must be at least 2 characters"),
             MinLengthError(f.username, 4, "Username is required", "Username must be at least 4 characters"),
             EmailError(f.email), PasswordError(f.password))
  }

  /** What the form accepts. */
  predicate Acceptable(f: Form) {
    && !JsText.IsBlank(f.name) && |f.name| >= 2
    && !JsText.IsBlank(f.username) && |f.username| >= 4
    && JsText.IsEmailLike(f.email)
    && |f.password| >= 6 && HasUpperAndDigit(f.password)
  }

  lemma ValidateEmptyIffAcceptable(f: Form)
    ensures |Validate(f)| == 0 <==> Acceptable(f)
  {
    var errors := Validate(f);
    NoMessageIffAllPass(errors, "name" in errors, "username" in errors, "email" in errors, "password" in errors);
  }

  lemma NoMessageIffAllPass(errors: ErrorMap, nameFails: bool, usernameFails: bool, emailFails: bool, passwordFails: bool)
    requires errors.Keys <= {"name", "username", "email", "password"}
    requires "name" in errors <==> nameFails
    requires "username" in errors <==> usernameFails
    requires "email" in errors <==> emailFails
    requires "password" in errors <==> passwordFails
    ensures |errors| == 0 <==> !nameFails && !usernameFails && !emailFails && !passwordFails
  {
    if !nameFails && !usernameFails && !emailFails && !passwordFails {
      assert errors.Keys == {};
    }
  }

  /** The page's state: the form, the messages shown, the status line. */
  datatype State = State(form: Form, errors: ErrorMap, status: string)

  const SuccessStatus: string := "Admin registered successfully!"
  const FailureStatus: string := "Registration failed. Username or email may already exist."

  /**
   * `handleSubmit`, with `accepted` standing for whether the server took the
   * sign-up: a refused form only shows its messages; a sign-up that succeeds
   * empties the form and the messages; one the server refuses keeps both.
   */
  function HandleSubmit(s: State, accepted: bool): (t: State)
    ensures !Acceptable(s.form) ==> t == State(s.form, Validate(s.form), "") && |t.errors| > 0
    ensures Acceptable(s.form) && accepted ==> t == State(EmptyForm, map[], SuccessStatus)
    ensures Acceptable(s.form) && !accepted ==> t == State(s.form, s.errors, FailureStatus)
  {
    ValidateEmptyIffAcceptable(s.form);
    match Gate(Validate(s.form), s.form)
    case Blocked(errors) => State(s.form, errors, "")
    case Sent(_) => if accepted then State(EmptyForm, map[], SuccessStatus) else State(s.form, s.errors, FailureStatus)
  }

  /** A password of six lower-case letters and digits is refused for want of an upper-case letter. */
  lemma NoUpperCaseIsRefused()
    ensures PasswordError("abc123") == Some(PasswordRuleMessage)
  {
    var p := "abc123";
    JsText.NotBlankWhenSomeNonSpace(p, 0);
    assert !JsText.HasUpper(p);
  }
}
