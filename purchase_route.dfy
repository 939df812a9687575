/** The purchase endpoint, `POST` of app/api/checkout/purchase/route.ts: an
    ordered chain of early returns from the request to a status and a body.
    The body is decoded first; then the bearer credential, the cart lines and
    the payment fields are checked, in that order. The artificial delay is not
    modelled; the random transaction id and the clock are inputs. */
module PurchaseRoute {
  import opened JsValues

  /** The request as the handler reads it: the `Authorization` header (null
      when absent) and the body decoded by `request.json()` (None when that
      throws). */
  datatype PurchaseRequest = PurchaseRequest(authorization: Option<string>, body: Option<JsValue>)

  datatype PurchaseResponse =
    | Rejected(status: int, error: string)
    | Accepted(transactionId: string, timestamp: string, amount: JsValue, itemCount: nat)
  {
    function Status(): int {
      if Rejected? then status else 200
    }
  }

  const BearerPrefix := "Bearer "
  const AuthRequired := "Authentication required"
  const InvalidAuth := "Invalid authentication"
  const NoItems := "No items in cart"
  const MissingPayment := "Missing payment details or total amount"
  const PaymentFailed := "Payment processing failed"

  /** `!authHeader || !authHeader.startsWith('Bearer ')` */
  predicate LacksBearer(authorization: Option<string>) {
    authorization.None? || !(BearerPrefix <= authorization.value)
  }

  /** `authHeader.substring(7)`, on a header that starts with the prefix. */
  function Token(authorization: Option<string>): string
    requires !LacksBearer(authorization)
  {
    authorization.value[|BearerPrefix|..]
  }

  /** `!items || !Array.isArray(items) || items.length === 0` */
  predicate LacksItems(items: JsValue) {
    !items.JsArray? || |items.elems| == 0
  }

  /** The handler. `random36` stands for `Math.random().toString(36)` and `now`
      for `new Date().toISOString()`. Every response is either a rejection
      with one of the statuses 400, 401 and 500, or an acceptance echoing the
      total and counting the cart lines. */
  function HandlePurchase(req: PurchaseRequest, random36: string, now: string): (r: PurchaseResponse)
    ensures r.Status() in {200, 400, 401, 500}
    ensures r.Rejected? && r.status == 500 ==> r.error == PaymentFailed
    ensures r.Rejected? && r.status == 401 ==> r.error == AuthRequired || r.error == InvalidAuth
    ensures r.Rejected? && r.status == 400 ==> r.error == NoItems || r.error == MissingPayment
    ensures r.Accepted? ==> req.body.Some? && !IsNullish(req.body.value)
    ensures r.Accepted? ==> Truthy(r.amount) && r.amount == Field(req.body.value, "totalAmount")
    ensures r.Accepted? ==>
      Field(req.body.value, "items").JsArray? && r.itemCount == |Field(req.body.value, "items").elems| > 0
    ensures r.Accepted? ==> |r.transactionId| <= 13
  {
    match req.body
    case None => Rejected(500, PaymentFailed)
    case Some(body) =>
      // destructuring `const { items, ... } = body` throws on null
      if IsNullish(body) then Rejected(500, PaymentFailed)
      else
        var items := Field(body, "items");
        var paymentDetails := Field(body, "paymentDetails");
        var totalAmount := Field(body, "totalAmount");
        if LacksBearer(req.authorization) then Rejected(401, AuthRequired)
        else if Token(req.authorization) == "" then Rejected(401, InvalidAuth)
        else if LacksItems(items) then Rejected(400, NoItems)
        else if !Truthy(paymentDetails) || !Truthy(totalAmount) then Rejected(400, MissingPayment)
        else Accepted(JsSubstring(random36, 2, 15), now, totalAmount, |items.elems|)
  }

  /** A body that cannot be decoded, or decodes to null, gives 500 whatever
      the headers say: decoding happens before any check. */
  lemma UndecodableBodyFailsFirst(req: PurchaseRequest, random36: string, now: string)
    requires req.body.None? || IsNullish(req.body.value)
    ensures HandlePurchase(req, random36, now) == Rejected(500, PaymentFailed)
  {
  }

  /** With a decodable body, the credential is checked before anything in the
      body: no bearer header gives 401 "Authentication required", a header of
      exactly "Bearer " gives 401 "Invalid authentication". */
  lemma AuthenticationCheckedBeforeCart(req: PurchaseRequest, random36: string, now: string)
    requires req.body.Some? && !IsNullish(req.body.value)
    ensures LacksBearer(req.authorization) ==> HandlePurchase(req, random36, now) == Rejected(401, AuthRequired)
    ensures req.authorization == Some(BearerPrefix) ==> HandlePurchase(req, random36, now) == Rejected(401, InvalidAuth)
  {
  }

  /** Once the body decodes and the bearer token is non-empty, the cart is
      checked before the payment fields. A missing, non-array or empty `items`
      gives 400 "No items in cart" whatever the payment fields hold. Otherwise
      a falsy `paymentDetails` or `totalAmount` gives 400 "Missing payment
      details or total amount". */
  lemma CartCheckedBeforePayment(req: PurchaseRequest, random36: string, now: string)
    requires req.body.Some? && !IsNullish(req.body.value)
    requires !LacksBearer(req.authorization) && Token(req.authorization) != ""
    ensures LacksItems(Field(req.body.value, "items"))
      ==> HandlePurchase(req, random36, now) == Rejected(400, NoItems)
    ensures !LacksItems(Field(req.body.value, "items"))
      && (!Truthy(Field(req.body.value, "paymentDetails")) || !Truthy(Field(req.body.value, "totalAmount")))
      ==> HandlePurchase(req, random36, now) == Rejected(400, MissingPayment)
  {
  }

  /** A request is accepted exactly when its body decodes to a non-null value,
      it carries a non-empty bearer token, a non-empty `items` array, and
      truthy `paymentDetails` and `totalAmount`; a total of 0 is rejected with
      400 even when everything else is valid. */
  lemma AcceptedExactlyWhenComplete(req: PurchaseRequest, random36: string, now: string)
    ensures HandlePurchase(req, random36, now).Accepted? <==>
      && req.body.Some? && !IsNullish(req.body.value)
      && !LacksBearer(req.authorization) && |req.authorization.value| > |BearerPrefix|
      && !LacksItems(Field(req.body.value, "items"))
      && Truthy(Field(req.body.value, "paymentDetails"))
      && Truthy(Field(req.body.value, "totalAmount"))
    ensures && req.body.Some? && !IsNullish(req.body.value)
            && !LacksBearer(req.authorization) && |req.authorization.value| > |BearerPrefix|
            && !LacksItems(Field(req.body.value, "items"))
            && Field(req.body.value, "totalAmount") == JsNumber(0)
            ==> HandlePurchase(req, random36, now) == Rejected(400, MissingPayment)
  {
  }
}
