/**
 * The sign-in form: its two field checks and the gate in front of `login`.
 */
module LoginForm {
  import opened Common
  import opened Text
  import LoginRoute

  /** The form's `FormErrors`. */
  datatype LoginErrors = LoginErrors(email: Option<string>, password: Option<string>, general: Option<string>)

  const NoErrors: LoginErrors := LoginErrors(None, None, None)

  const EmailRequired: string := "Email is required"
  const EmailInvalid: string := "Please enter a valid email address"
  const PasswordRequired: string := "Password is required"
  const PasswordTooShort: string := "Password must be at least 6 characters"

  /** A well-formed address starts with a character that is not white space. */
  lemma EmailShapeNotBlank(email: string)
    requires IsEmailShape(email)
    ensures !AllWhitespace(email)
  {
    var at := IndexOf(email, '@').value;
    assert email[..at][0] == email[0];
  }

  /**
   * `validateForm`, with JavaScript's `length` in UTF-16 code units. The
   * address is trimmed only for the "required" check;
   * the pattern is matched against the address as typed.
   */
  function Validate(email: string, password: string): (e: LoginErrors)
    ensures e.email == Some(EmailRequired) <==> AllWhitespace(email)
    ensures e.email == Some(EmailInvalid) <==> !AllWhitespace(email) && !IsEmailShape(email)
    ensures e.email.None? <==> IsEmailShape(email)
    ensures e.password == Some(PasswordRequired) <==> password == ""
    ensures e.password == Some(PasswordTooShort) <==> password != "" && JsLength(password) < 6
    ensures e.password.None? <==> JsLength(password) >= 6
    ensures e.general.None?
  {
    assert IsEmailShape(email) ==> !AllWhitespace(email) by {
      if IsEmailShape(email) {
        EmailShapeNotBlank(email);
      }
    }
    LoginErrors(
      if Trim(email) == "" then Some(EmailRequired)
      else if !IsEmailShape(email) then Some(EmailInvalid)
      else None,
      if password == "" then Some(PasswordRequired)
      else if JsLength(password) < 6 then Some(PasswordTooShort)
      else None,
      None)
  }

  /** What `login` (from the authentication context) answered. */
  datatype LoginResult = LoginResult(success: bool, error: string)

  /** The form after a submit: whether `login` was called, the errors shown, whether it moved on to the dashboard. */
  datatype Submitted = Submitted(calledLogin: bool, errors: LoginErrors, toDashboard: bool)

  /** `handleSubmit`; `result` is what `login` answers when it is called. */
  function HandleSubmit(email: string, password: string, result: LoginResult): (r: Submitted)
    ensures r.calledLogin <==> Validate(email, password) == NoErrors
    ensures !r.calledLogin ==> r.errors == Validate(email, password) && !r.toDashboard
    ensures r.calledLogin ==> (r.toDashboard <==> result.success)
    ensures r.calledLogin && !result.success ==> r.errors == LoginErrors(None, None, Some(result.error))
    ensures r.calledLogin && result.success ==> r.errors == NoErrors
  {
    var errors := Validate(email, password);
    if errors != NoErrors then Submitted(false, errors, false)
    else if result.success then Submitted(true, NoErrors, true)
    else Submitted(true, LoginErrors(None, None, Some(result.error)), false)
  }

  /** The form calls `login` exactly when the address is well formed and the password is at least six UTF-16 units long. */
  lemma GateIffFieldsPass(email: string, password: string, result: LoginResult)
    ensures HandleSubmit(email, password, result).calledLogin <==> IsEmailShape(email) && JsLength(password) >= 6
  {
  }

  /** Credentials the form lets through are never refused by the route as missing or malformed. */
  lemma FormPassesRouteChecks(email: string, password: string, result: LoginResult, millis: nat, suffix: string)
    requires HandleSubmit(email, password, result).calledLogin
    ensures LoginRoute.Login(LoginRoute.Credentials(Some(email), Some(password)), millis, suffix).Status() != 400
  {
    assert JsLength(password) >= 6;
    assert IsEmailShape(email);
    EmailShapeNotBlank(email);
    assert email != "";
  }

  /** Three emoji make a password of six UTF-16 units, long enough for the form. */
  lemma AstralPasswordIsLongEnough()
    ensures Validate("", "\U{1F600}\U{1F600}\U{1F600}").password.None?
  {
    var smile := "\U{1F600}";
    assert JsLength(smile) == 2 by { assert smile[..0] == []; }
    JsLengthConcat(smile, smile);
    JsLengthConcat(smile + smile, smile);
    assert smile + smile + smile == "\U{1F600}\U{1F600}\U{1F600}";
  }

  /** Submitting the empty form shows both "required" messages and calls nothing. */
  lemma EmptyFormShowsRequired(result: LoginResult)
    ensures HandleSubmit("", "", result) == Submitted(false, LoginErrors(Some(EmailRequired), Some(PasswordRequired), None), false)
  {
    assert AllWhitespace("");
  }

  /** An address without `@` is reported as invalid while a long enough password passes. */
  lemma AddressWithoutAtIsInvalid(result: LoginResult)
    ensures Validate("invalid-email", "password123") == LoginErrors(Some(EmailInvalid), None, None)
  {
    assert !IsWhitespace("invalid-email"[0]);
    assert '@' !in "invalid-email";
  }
}
