/** The client state of lib/store.ts: the persisted auth store (`user`,
    `isAuthenticated`, `login`, `logout`) and the purchase store
    (`processingPurchase`, `purchaseComplete`, `purchaseError`, `makePurchase`,
    `resetPurchaseState`). Each zustand `set(...)` becomes a field update.
    The network, the random id and browser storage are inputs or objects passed
    in; the simulated delay and the deferred `setTimeout` are not modelled (the
    purchase reset runs right after the auth fields are cleared). */
module Store {
  import opened JsValues
  import opened EmailFormat
  import PurchaseRoute

  datatype User = User(id: string, email: string, name: string)

  datatype LoginResult = LoginResult(success: bool, error: Option<string>)

  /** What `makePurchase` resolves to. The error is whatever the code put
      there: a fixed text, or the server's `error` field, which need not be a
      string. */
  datatype PurchaseResult = PurchaseResult(success: bool, error: Option<JsValue>)

  /** How the single `fetch` turned out: it threw, or a response arrived with a
      status and a body that `response.json()` decoded (None when that threw). */
  datatype FetchOutcome =
    | FetchThrew
    | Responded(status: int, body: Option<JsValue>)
  {
    /** `response.ok` */
    predicate Ok() {
      Responded? && 200 <= status <= 299
    }
  }

  /** A decoded non-ok response other than 401 whose body is not null: the
      case where the server's `error` field decides the message. */
  predicate Rejection(outcome: FetchOutcome) {
    && outcome.Responded? && outcome.body.Some? && !outcome.Ok() && outcome.status != 401
    && !IsNullish(outcome.body.value)
  }

  /** The outcomes that end in the `catch` block of `makePurchase`: `fetch`
      throws, `response.json()` throws, or reading `data.error` of a null
      body throws on a non-ok response other than 401. */
  predicate ThrowsInPurchase(outcome: FetchOutcome) {
    || outcome.FetchThrew? || outcome.body.None?
    || (!outcome.Ok() && outcome.status != 401 && IsNullish(outcome.body.value))
  }

  const InvalidCredentials := "Invalid email or password. Please try again."
  const AuthRequiredMessage := "Authentication required. Please log in to complete your purchase."
  /** Fallbacks when a rejecting response has no truthy `error`: the stored
      text and the returned text differ. */
  const StoredRejectionFallback := "An error occurred while processing your payment."
  const ReturnedRejectionFallback := "Payment processing failed. Please try again."
  /** Texts for the exception path. */
  const StoredExceptionMessage := "An error occurred while processing your payment. Please try again."
  const ReturnedExceptionMessage := "Payment processing failed. Please try again."
  const CartStorageKey := "cart"

  /** `authenticateUser`: any password; the email must match the pattern; the
      user keeps the email as given and is named after the text before its
      first `@`. `random36` stands for `Math.random().toString(36)`. */
  function AuthenticateUser(email: string, password: string, random36: string): (u: Option<User>)
    ensures u.Some? <==> MatchesEmailPattern(email)
    ensures u.Some? ==> u.value.email == email && u.value.id == JsSubstring(random36, 2, 15)
    ensures u.Some? ==> u.value.name != "" && '@' !in u.value.name && u.value.name + "@" <= email
  {
    ValidEmailIsPattern(email);
    if !IsValidEmail(email) then None
    else
      LocalPartOfValidEmail(email);
      Some(User(JsSubstring(random36, 2, 15), email, LocalPart(email)))
  }

  /** The `Authorization` header `makePurchase` attaches. */
  function BearerHeader(isAuthenticated: bool, user: Option<User>): (h: Option<string>)
    ensures h.Some? <==> isAuthenticated && user.Some?
    ensures h.Some? ==> !PurchaseRoute.LacksBearer(h) && PurchaseRoute.Token(h) == user.value.id
  {
    if isAuthenticated && user.Some? then Some(PurchaseRoute.BearerPrefix + user.value.id) else None
  }

  /** HTTP whitespace in the sense of the Fetch standard: tab, line feed,
      carriage return and space. */
  predicate IsHttpWhitespace(c: char) {
    c == '\t' || c == '\n' || c == '\r' || c == ' '
  }

  /** The text without its trailing HTTP whitespace. */
  function TrimEnd(s: string): (r: string)
    ensures r <= s
    ensures r == [] || !IsHttpWhitespace(r[|r| - 1])
    ensures forall i | |r| <= i < |s| :: IsHttpWhitespace(s[i])
    decreases |s|
  {
    if s != [] && IsHttpWhitespace(s[|s| - 1]) then TrimEnd(s[..|s| - 1]) else s
  }

  /** The text without its leading HTTP whitespace. */
  function TrimStart(s: string): (r: string)
    ensures |r| <= |s| && r == s[|s| - |r|..]
    ensures r == [] || !IsHttpWhitespace(r[0])
    ensures forall i | 0 <= i < |s| - |r| :: IsHttpWhitespace(s[i])
    decreases |s|
  {
    if s != [] && IsHttpWhitespace(s[0]) then TrimStart(s[1..]) else s
  }

  /** Everything of `v` outside `v[i..j]` is HTTP whitespace. */
  predicate WhitespaceOutside(v: string, i: nat, j: nat)
    requires i <= j <= |v|
  {
    && (forall k | 0 <= k < i :: IsHttpWhitespace(v[k]))
    && (forall k | j <= k < |v| :: IsHttpWhitespace(v[k]))
  }

  /** Cutting whitespace off the end of `v`, then off the start of what is
      left, cuts out a slice of `v` with only whitespace around it. */
  lemma TrimmedIsSlice(v: string, e: string, t: string)
    requires e <= v && forall k | |e| <= k < |v| :: IsHttpWhitespace(v[k])
    requires |t| <= |e| && t == e[|e| - |t|..] && forall k | 0 <= k < |e| - |t| :: IsHttpWhitespace(e[k])
    ensures t == v[|e| - |t|..|e|]
    ensures WhitespaceOutside(v, |e| - |t|, |e|)
  {
    assert e == v[..|e|];
    forall k | 0 <= k < |e| - |t| ensures IsHttpWhitespace(v[k]) {
      assert v[k] == e[k];
    }
  }

  /** The value a header arrives with: `fetch` normalises every header value
      by stripping leading and trailing HTTP whitespace. */
  function NormalizeHeaderValue(v: string): (r: string)
    ensures |r| <= |v|
    ensures r == [] || (!IsHttpWhitespace(r[0]) && !IsHttpWhitespace(r[|r| - 1]))
    ensures exists i, j | 0 <= i <= j <= |v| :: r == v[i..j] && WhitespaceOutside(v, i, j)
  {
    var e := TrimEnd(v);
    var t := TrimStart(e);
    TrimmedIsSlice(v, e, t);
    t
  }

  /** Trimming the end of `a + b` trims into `a` only when `b` is all
      whitespace. */
  lemma {:induction false} TrimEndOfConcat(a: string, b: string)
    ensures TrimEnd(a + b) == if TrimEnd(b) == [] then TrimEnd(a) else a + TrimEnd(b)
    decreases |b|
  {
    if b == [] {
      assert a + b == a;
    } else {
      assert (a + b)[|a + b| - 1] == b[|b| - 1];
      assert (a + b)[..|a + b| - 1] == a + b[..|b| - 1];
      if IsHttpWhitespace(b[|b| - 1]) {
        TrimEndOfConcat(a, b[..|b| - 1]);
      }
    }
  }

  /** The prefix alone loses its trailing space. */
  lemma BearerPrefixTrimmed()
    ensures TrimEnd(PurchaseRoute.BearerPrefix) == "Bearer"
  {
    var prefix, word := PurchaseRoute.BearerPrefix, "Bearer";
    assert prefix[..|prefix| - 1] == word;
    assert TrimEnd(prefix) == TrimEnd(word);
    assert word[5] == 'r';
  }

  /** The header `makePurchase` builds, as the purchase endpoint receives it:
      `"Bearer " + id` with the id's trailing whitespace gone. An id that is
      empty or all whitespace loses the space after "Bearer" too. */
  lemma BearerHeaderAsReceived(id: string)
    ensures TrimEnd(id) == [] ==> NormalizeHeaderValue(PurchaseRoute.BearerPrefix + id) == "Bearer"
    ensures TrimEnd(id) != [] ==> NormalizeHeaderValue(PurchaseRoute.BearerPrefix + id) == PurchaseRoute.BearerPrefix + TrimEnd(id)
  {
    TrimEndOfConcat(PurchaseRoute.BearerPrefix, id);
    var trimmed := TrimEnd(PurchaseRoute.BearerPrefix + id);
    if TrimEnd(id) == [] {
      BearerPrefixTrimmed();
      assert trimmed == "Bearer";
    } else {
      assert trimmed == PurchaseRoute.BearerPrefix + TrimEnd(id);
    }
    assert trimmed[0] == 'B';
  }

  /** A header "Bearer " followed by a non-empty token passes both credential
      checks of the purchase endpoint. */
  lemma NonEmptyTokenPassesCredentials(h: string, body: JsValue, random36: string, now: string)
    requires !IsNullish(body) && PurchaseRoute.BearerPrefix <= h && |h| > |PurchaseRoute.BearerPrefix|
    ensures PurchaseRoute.HandlePurchase(PurchaseRoute.PurchaseRequest(Some(h), Some(body)), random36, now).Status() != 401
  {
    assert PurchaseRoute.Token(Some(h)) != "";
  }

  /** What the purchase endpoint makes of that header once `fetch` has
      normalised it: signed out, or an id that is empty or all whitespace,
      gets "Authentication required" (the trailing space of "Bearer " is
      stripped, so the endpoint's "Invalid authentication" is never reached
      from this client); any other id passes both credential checks. */
  lemma BearerHeaderMeetsEndpoint(isAuthenticated: bool, user: Option<User>, body: JsValue, random36: string, now: string)
    requires !IsNullish(body)
    ensures var sent := BearerHeader(isAuthenticated, user);
      var received := if sent.Some? then Some(NormalizeHeaderValue(sent.value)) else None;
      var r := PurchaseRoute.HandlePurchase(PurchaseRoute.PurchaseRequest(received, Some(body)), random36, now);
      && (!isAuthenticated || user.None? ==> r == PurchaseRoute.Rejected(401, PurchaseRoute.AuthRequired))
      && (isAuthenticated && user.Some? && TrimEnd(user.value.id) == [] ==> r == PurchaseRoute.Rejected(401, PurchaseRoute.AuthRequired))
      && (isAuthenticated && user.Some? && TrimEnd(user.value.id) != [] ==> r.Status() != 401)
  {
    var sent := BearerHeader(isAuthenticated, user);
    var received := if sent.Some? then Some(NormalizeHeaderValue(sent.value)) else None;
    var req := PurchaseRoute.PurchaseRequest(received, Some(body));
    if isAuthenticated && user.Some? {
      var id := user.value.id;
      BearerHeaderAsReceived(id);
      if TrimEnd(id) == [] {
        assert received == Some("Bearer");
        assert PurchaseRoute.LacksBearer(received);
        PurchaseRoute.AuthenticationCheckedBeforeCart(req, random36, now);
      } else {
        var h := PurchaseRoute.BearerPrefix + TrimEnd(id);
        assert received == Some(h);
        NonEmptyTokenPassesCredentials(h, body, random36, now);
      }
    } else {
      PurchaseRoute.AuthenticationCheckedBeforeCart(req, random36, now);
    }
  }

  /** Browser `localStorage`, as far as the stores touch it, apart from the
      `auth-storage` key that zustand's `persist` rewrites on every `set` of
      the auth store; that write is not modelled. */
  class BrowserStorage {
    var items: map<string, string>

    constructor (initial: map<string, string>)
      ensures items == initial
    {
      items := initial;
    }

    method RemoveItem(key: string)
      modifies this
      ensures items == old(items) - {key}
    {
      items := items - {key};
    }
  }

  /** `resetAppState`: drop the persisted cart, in a browser only. */
  method ResetAppState(storage: BrowserStorage, inBrowser: bool)
    modifies storage
    ensures storage.items == if inBrowser then old(storage.items) - {CartStorageKey} else old(storage.items)
  {
    if inBrowser {
      storage.RemoveItem(CartStorageKey);
    }
  }

  class PurchaseStore {
    var processingPurchase: bool
    var purchaseComplete: bool
    var purchaseError: Option<JsValue>

    /** The initial state, which `resetPurchaseState` restores. */
    predicate IsInitial()
      reads this
    {
      !processingPurchase && !purchaseComplete && purchaseError.None?
    }

    constructor ()
      ensures IsInitial()
    {
      processingPurchase, purchaseComplete, purchaseError := false, false, None;
    }

    method ResetPurchaseState()
      modifies this
      ensures IsInitial()
    {
      processingPurchase, purchaseComplete, purchaseError := false, false, None;
    }

    /** The synchronous start of `makePurchase`, before the request is sent. */
    method BeginPurchase()
      modifies this
      ensures processingPurchase && purchaseError.None? && purchaseComplete == old(purchaseComplete)
    {
      processingPurchase, purchaseError := true, None;
    }

    /** The rest of `makePurchase`, once the request has settled. */
    method FinishPurchase(outcome: FetchOutcome) returns (r: PurchaseResult)
      modifies this
      ensures !processingPurchase
      ensures r.success <==> outcome.Ok() && outcome.body.Some?
      ensures purchaseComplete == (old(purchaseComplete) || r.success)
      ensures r.success ==> r.error.None? && purchaseError == old(purchaseError)
      ensures !r.success ==> r.error.Some? && Truthy(r.error.value) && purchaseError.Some? && Truthy(purchaseError.value)
      ensures outcome.Responded? && outcome.body.Some? && outcome.status == 401 ==>
        purchaseError == r.error == Some(JsString(AuthRequiredMessage))
      ensures ThrowsInPurchase(outcome) ==>
        purchaseError == Some(JsString(StoredExceptionMessage)) && r.error == Some(JsString(ReturnedExceptionMessage))
      ensures Rejection(outcome) && !Truthy(Field(outcome.body.value, "error")) ==>
        purchaseError == Some(JsString(StoredRejectionFallback)) && r.error == Some(JsString(ReturnedRejectionFallback))
      ensures Rejection(outcome) && Truthy(Field(outcome.body.value, "error")) ==>
        purchaseError == r.error == Some(Field(outcome.body.value, "error"))
    {
      if outcome.FetchThrew? || outcome.body.None? {
        r := FailWithException();
        return;
      }
      var data := outcome.body.value;
      if !outcome.Ok() {
        if outcome.status == 401 {
          processingPurchase, purchaseError := false, Some(JsString(AuthRequiredMessage));
          return PurchaseResult(false, Some(JsString(AuthRequiredMessage)));
        }
        if IsNullish(data) {
          // reading `data.error` of a null body throws
          r := FailWithException();
          return;
        }
        var serverError := Field(data, "error");
        processingPurchase := false;
        purchaseError := Some(Or(serverError, JsString(StoredRejectionFallback)));
        return PurchaseResult(false, Some(Or(serverError, JsString(ReturnedRejectionFallback))));
      }
      processingPurchase, purchaseComplete := false, true;
      r := PurchaseResult(true, None);
    }

    /** The `catch` block of `makePurchase`. */
    method FailWithException() returns (r: PurchaseResult)
      modifies this
      ensures !processingPurchase && purchaseComplete == old(purchaseComplete)
      ensures purchaseError == Some(JsString(StoredExceptionMessage))
      ensures r == PurchaseResult(false, Some(JsString(ReturnedExceptionMessage)))
    {
      processingPurchase, purchaseError := false, Some(JsString(StoredExceptionMessage));
      r := PurchaseResult(false, Some(JsString(ReturnedExceptionMessage)));
    }

    /** `makePurchase`: start, send one request carrying the bearer header of
        the signed-in user, and record how it ended. Every path ends with
        `processingPurchase` false; `purchaseComplete` is never reset, and is
        set only by an ok response whose body decodes. */
    method MakePurchase(auth: AuthStore, outcome: FetchOutcome) returns (sentAuthorization: Option<string>, r: PurchaseResult)
      requires auth.Valid()
      modifies this
      ensures sentAuthorization == BearerHeader(auth.isAuthenticated, auth.user)
      ensures sentAuthorization.Some? <==> auth.user.Some?
      ensures !processingPurchase
      ensures r.success <==> outcome.Ok() && outcome.body.Some?
      ensures purchaseComplete == (old(purchaseComplete) || r.success)
      ensures r.success ==> r.error.None? && purchaseError.None?
      ensures !r.success ==> r.error.Some? && purchaseError.Some?
      ensures outcome.Responded? && outcome.body.Some? && outcome.status == 401 ==>
        purchaseError == r.error == Some(JsString(AuthRequiredMessage))
      ensures ThrowsInPurchase(outcome) ==>
        purchaseError == Some(JsString(StoredExceptionMessage)) && r.error == Some(JsString(ReturnedExceptionMessage))
      ensures Rejection(outcome) && !Truthy(Field(outcome.body.value, "error")) ==>
        purchaseError == Some(JsString(StoredRejectionFallback)) && r.error == Some(JsString(ReturnedRejectionFallback))
      ensures Rejection(outcome) && Truthy(Field(outcome.body.value, "error")) ==>
        purchaseError == r.error == Some(Field(outcome.body.value, "error"))
    {
      BeginPurchase();
      sentAuthorization := BearerHeader(auth.isAuthenticated, auth.user);
      r := FinishPurchase(outcome);
    }
  }

  class AuthStore {
    var user: Option<User>
    var isAuthenticated: bool

    /** `isAuthenticated` is true exactly when a user is signed in. */
    predicate Valid()
      reads this
    {
      isAuthenticated <==> user.Some?
    }

    constructor ()
      ensures Valid() && user.None?
    {
      user, isAuthenticated := None, false;
    }

    /** `login`: succeeds exactly when the email matches the pattern, whatever
        the password; then the user is signed in. A failure leaves the state
        as it was and returns the fixed message. */
    method Login(email: string, password: string, random36: string) returns (r: LoginResult)
      requires Valid()
      modifies this
      ensures Valid()
      ensures r.success <==> MatchesEmailPattern(email)
      ensures r.success ==> r.error.None? && isAuthenticated && user == AuthenticateUser(email, password, random36)
      ensures r.success ==> user.value.email == email && user.value.name + "@" <= email && '@' !in user.value.name
      ensures !r.success ==> r.error == Some(InvalidCredentials)
      ensures !r.success ==> user == old(user) && isAuthenticated == old(isAuthenticated)
    {
      var u := AuthenticateUser(email, password, random36);
      if u.Some? {
        user, isAuthenticated := u, true;
        r := LoginResult(true, None);
      } else {
        r := LoginResult(false, Some(InvalidCredentials));
      }
    }

    /** `logout`: sign out, drop the persisted cart (in a browser), then reset
        the purchase store to its initial state. Calling it when signed out
        ends in the same state. */
    method Logout(purchases: PurchaseStore, storage: BrowserStorage, inBrowser: bool)
      modifies this, purchases, storage
      ensures Valid() && user.None? && !isAuthenticated
      ensures purchases.IsInitial()
      ensures storage.items == if inBrowser then old(storage.items) - {CartStorageKey} else old(storage.items)
      ensures inBrowser ==> CartStorageKey !in storage.items
    {
      user, isAuthenticated := None, false;
      ResetAppState(storage, inBrowser);
      purchases.ResetPurchaseState();
    }
  }
}
