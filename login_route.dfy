/** The login endpoint, `POST` of app/api/auth/login/route.ts: reject a
    request that carries only the misspelt `authentication` header, decode the
    body, check the email format, and build a user whose id follows the
    configured generation method. The password is read but never checked. */
module LoginRoute {
  import opened JsValues
  import opened EmailFormat

  /** `SERVER_AUTH_CONFIG.idGenerationMethod`, the only configuration field
      that influences the response. */
  const IdGenerationMethod := "legacy"

  /** The request as the handler reads it: the `Authorization` and
      `authentication` headers (null when absent) and the body decoded by
      `request.json()` (None when that throws). */
  datatype LoginRequest = LoginRequest(authorization: Option<string>, authentication: Option<string>, body: Option<JsValue>)

  datatype User = User(id: string, email: string, name: string)

  datatype LoginResponse =
    | LoginFailed(status: int, error: string, message: string, code: string)
    | LoggedIn(user: User)

  const AuthFailed := LoginFailed(401, "Authentication failed", "Invalid authentication credentials", "AUTH_FAILED")
  const InvalidEmail := LoginFailed(400, "Invalid email format", "Please provide a valid email address", "INVALID_EMAIL")
  const AuthError := LoginFailed(500, "Authentication failed", "An error occurred during the authentication process", "AUTH_ERROR")

  /** Truthiness of a header value: absent and empty are both falsy. */
  predicate HeaderPresent(h: Option<string>) {
    h.Some? && h.value != ""
  }

  /** The `switch` on the id generation method. `random36` stands for
      `Math.random().toString(36)` and `now` for `Date.now()`. */
  function GenerateUserId(scheme: string, random36: string, now: int): (id: string)
    ensures scheme == "legacy" ==> "legacy-" <= id && |id| <= 10
    ensures scheme == "standard" ==> |id| <= 13
  {
    if scheme == "standard" then JsSubstring(random36, 2, 15)
    else if scheme == "legacy" then "legacy-" + JsSubstring(random36, 2, 5)
    else if scheme == "uuid" then NumberToString(now) + "-" + JsSubstring(random36, 2, 7)
    else "user-" + JsSubstring(random36, 2, 10)
  }

  /** The handler. `emailRegex.test(email)` coerces `email` to a string, which
      throws for an object with an own `toString` key (or an array holding
      one), and `email.split('@')` throws unless `email` is a string; every
      throw ends in the 500 `AUTH_ERROR` response. */
  function HandleLogin(req: LoginRequest, random36: string, now: int): (r: LoginResponse)
    ensures r.LoggedIn? ==> "legacy-" <= r.user.id
    ensures r.LoggedIn? ==> !HeaderPresent(req.authentication) || HeaderPresent(req.authorization)
    ensures r.LoggedIn? ==>
      && req.body.Some? && !IsNullish(req.body.value)
      && Field(req.body.value, "email") == JsString(r.user.email)
      && MatchesEmailPattern(r.user.email)
    ensures r.LoggedIn? ==> r.user.name != "" && '@' !in r.user.name && r.user.name + "@" <= r.user.email
  {
    if !HeaderPresent(req.authorization) && HeaderPresent(req.authentication) then AuthFailed
    else
      match req.body
      case None => AuthError
      case Some(body) =>
        if IsNullish(body) then AuthError
        else
          var email := Field(body, "email");
          match ToJsString(email)
          case None => AuthError
          case Some(text) =>
            if !IsValidEmail(text) then InvalidEmail
            else if !email.JsString? then AuthError
            else
              var user := User(GenerateUserId(IdGenerationMethod, random36, now), email.s, LocalPart(email.s));
              ValidEmailIsPattern(email.s);
              LocalPartOfValidEmail(email.s);
              LoggedIn(user)
  }

  /** A body object whose `email` is a string: the outcome is decided by the
      header rule and then by the email pattern alone. */
  lemma LoginOutcomeForTextEmail(req: LoginRequest, email: string, random36: string, now: int)
    requires req.body.Some? && req.body.value.JsObject? && Field(req.body.value, "email") == JsString(email)
    ensures !HeaderPresent(req.authorization) && HeaderPresent(req.authentication)
      ==> HandleLogin(req, random36, now) == AuthFailed
    ensures HeaderPresent(req.authorization) || !HeaderPresent(req.authentication) ==>
      HandleLogin(req, random36, now) == if MatchesEmailPattern(email)
        then LoggedIn(User(GenerateUserId(IdGenerationMethod, random36, now), email, LocalPart(email)))
        else InvalidEmail
  {
    ValidEmailIsPattern(email);
  }

  /** The misspelt-header rule is decided before the body is read: whatever the
      body, a request with only `authentication` fails with 401. */
  lemma WrongHeaderRejectedBeforeBody(req: LoginRequest, random36: string, now: int)
    requires !HeaderPresent(req.authorization) && HeaderPresent(req.authentication)
    ensures HandleLogin(req, random36, now) == AuthFailed
  {
  }

  /** Once the header rule passes, a body that cannot be decoded, or decodes
      to null or undefined, makes the destructuring throw: 500 `AUTH_ERROR`. */
  lemma UndecodableBodyGivesAuthError(req: LoginRequest, random36: string, now: int)
    requires HeaderPresent(req.authorization) || !HeaderPresent(req.authentication)
    requires req.body.None? || IsNullish(req.body.value)
    ensures HandleLogin(req, random36, now) == AuthError
  {
  }

  /** The password plays no part: changing it, adding it or removing it never
      changes the response (the configured minimum length is never checked). */
  lemma PasswordIgnored(req: LoginRequest, fields: map<string, JsValue>, password: JsValue, random36: string, now: int)
    requires req.body == Some(JsObject(fields))
    ensures HandleLogin(req, random36, now)
         == HandleLogin(req.(body := Some(JsObject(fields["password" := password]))), random36, now)
    ensures HandleLogin(req, random36, now)
         == HandleLogin(req.(body := Some(JsObject(fields - {"password"}))), random36, now)
  {
    assert Field(JsObject(fields["password" := password]), "email") == Field(JsObject(fields), "email");
    assert Field(JsObject(fields - {"password"}), "email") == Field(JsObject(fields), "email");
  }

  /** An `email` that is not a string never logs in. If its coercion to text
      throws, the answer is 500. Otherwise, numbers, booleans, null, undefined
      and objects fail the format check with 400. An array fails with 400 when
      its text fails the check, and with 500 when its text passes, because
      `email.split` then throws. */
  lemma NonTextEmailNeverLogsIn(req: LoginRequest, random36: string, now: int)
    requires HeaderPresent(req.authorization) || !HeaderPresent(req.authentication)
    requires req.body.Some? && !IsNullish(req.body.value)
    requires !Field(req.body.value, "email").JsString?
    ensures !HandleLogin(req, random36, now).LoggedIn?
    ensures CoercionThrows(Field(req.body.value, "email")) ==> HandleLogin(req, random36, now) == AuthError
    ensures !Field(req.body.value, "email").JsArray? && !CoercionThrows(Field(req.body.value, "email"))
      ==> HandleLogin(req, random36, now) == InvalidEmail
    ensures Field(req.body.value, "email").JsArray? && !CoercionThrows(Field(req.body.value, "email")) ==>
      HandleLogin(req, random36, now)
        == if IsValidEmail(ToJsString(Field(req.body.value, "email")).value) then AuthError else InvalidEmail
  {
    var email := Field(req.body.value, "email");
    if !email.JsArray? {
      CoercedNonTextNeverValid(email);
    }
  }

  /** The one-element array ["a@b.co"] is such an array: its text is the
      address itself, which passes the check. */
  lemma SingletonArrayEmailThrows(req: LoginRequest, random36: string, now: int)
    requires !HeaderPresent(req.authentication)
    requires req.body == Some(JsObject(map["email" := JsArray([JsString("a@b.co")])]))
    ensures HandleLogin(req, random36, now) == AuthError
  {
    var arr := JsArray([JsString("a@b.co")]);
    assert Field(req.body.value, "email") == arr;
    assert JoinElements(arr, 0) == Some("a@b.co");
    assert !CoercionThrows(arr);
    SampleAddressValid();
    NonTextEmailNeverLogsIn(req, random36, now);
  }

  lemma SampleAddressValid()
    ensures IsValidEmail("a@b.co")
  {
    var s := "a@b.co";
    assert s[1..][0] == '@';
    assert IndexOfAt(s[1..]) == Some(0);
    assert IndexOfAt(s) == Some(1);
    assert AllAtomChars(s[..1]) by {
      assert s[..1] == "a";
    }
    var d := s[2..];
    assert d == "b.co";
    assert d[1] == '.';
    assert AllAtomChars(d) by {
      forall k | 0 <= k < |d| ensures IsAtomChar(d[k]) {
        assert d[k] in "b.co";
      }
    }
  }
}
