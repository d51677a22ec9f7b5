/**
 * POST /api/auth/login: three checks in a fixed order, then a session for
 * the single demo account.
 */
module LoginRoute {
  import opened Common
  import opened Text

  const ValidEmail: string := "john.doe@example.com"
  const ValidPassword: string := "password123"

  datatype User = User(id: string, email: string, name: string)

  /** The one account the route knows. */
  const DemoUser: User := User("1", ValidEmail, "John Doe")

  /** The JSON body; a field the client left out is `None`. */
  datatype Credentials = Credentials(email: Option<string>, password: Option<string>)

  datatype Session = Session(user: User, token: string)

  predicate Present(s: Option<string>) {
    s.Some? && s.value != ""
  }

  /**
   * The route's answer. `millis` is `Date.now()` and `suffix` the base-36
   * digits taken from `Math.random()`, both read when the token is made.
   */
  function Login(body: Credentials, millis: nat, suffix: string): (r: Reply<Session>)
    ensures !Present(body.email) || !Present(body.password) ==> r == Fail(400, "Email and password are required")
    ensures Present(body.email) && Present(body.password) && !IsEmailShape(body.email.value) ==>
      r == Fail(400, "Invalid email format")
    ensures r.Ok? ==> r.data.user == DemoUser && r.data.token == "token_" + NatToString(millis) + "_" + suffix
  {
    if !Present(body.email) || !Present(body.password) then
      Fail(400, "Email and password are required")
    else if !IsEmailShape(body.email.value) then
      Fail(400, "Invalid email format")
    else if body.email.value != ValidEmail || body.password.value != ValidPassword then
      Fail(401, "Invalid email or password")
    else
      Ok(Session(DemoUser, "token_" + NatToString(millis) + "_" + suffix))
  }

  /** The demo address passes the e-mail pattern. */
  lemma DemoEmailIsWellFormed()
    ensures IsEmailShape(ValidEmail)
  {
    var local, host, tld := "john.doe", "example", "com";
    assert ValidEmail == local + "@" + host + "." + tld;
    assert AllPlain(local) && AllPlain(host) && AllPlain(tld);
    LanguageHasEmailShape(ValidEmail, local, host, tld);
  }

  /** Only the demo pair is let in; every other body is turned away. */
  lemma OnlyDemoAccountSucceeds(body: Credentials, millis: nat, suffix: string)
    ensures Login(body, millis, suffix).Ok? <==> body == Credentials(Some(ValidEmail), Some(ValidPassword))
  {
    var r := Login(body, millis, suffix);
    if body == Credentials(Some(ValidEmail), Some(ValidPassword)) {
      DemoEmailIsWellFormed();
      assert Present(body.email) && Present(body.password);
      assert r == Ok(Session(DemoUser, "token_" + NatToString(millis) + "_" + suffix));
    } else if Present(body.email) && Present(body.password) && IsEmailShape(body.email.value) {
      assert body.email.value != ValidEmail || body.password.value != ValidPassword;
      assert r == Fail(401, "Invalid email or password");
    }
  }

  /** The status follows the order of the checks: 400 for a missing or malformed field, 401 for a wrong pair, 200 otherwise. */
  lemma StatusOrder(body: Credentials, millis: nat, suffix: string)
    ensures Login(body, millis, suffix).Status() == 400 <==>
      !Present(body.email) || !Present(body.password) || !IsEmailShape(body.email.value)
    ensures Login(body, millis, suffix).Status() == 401 <==>
      && Present(body.email) && Present(body.password) && IsEmailShape(body.email.value)
      && body != Credentials(Some(ValidEmail), Some(ValidPassword))
  {
    var r := Login(body, millis, suffix);
    if Present(body.email) && Present(body.password) && IsEmailShape(body.email.value) {
      OnlyDemoAccountSucceeds(body, millis, suffix);
      assert r.Ok? || r == Fail(401, "Invalid email or password");
    }
  }

  /** The route has no length rule: a well-formed pair with a password the form calls too short (under six UTF-16 units) is refused as wrong, not as malformed. */
  lemma ShortPasswordIsUnauthorized(email: string, password: string, millis: nat, suffix: string)
    requires IsEmailShape(email) && 0 < JsLength(password) < 6
    ensures Login(Credentials(Some(email), Some(password)), millis, suffix) == Fail(401, "Invalid email or password")
  {
    assert IndexOf(email, '@').Some?;
  }
}
