/** JavaScript values as the storefront code sees them once a body or a
    column has been decoded, together with the few language operations the
    modelled code relies on: truthiness (`!v`, `v || w`), property reads,
    string coercion (`String(v)`, implicit in `regex.test(v)`) and
    `String.prototype.substring`. */
module JsValues {

  datatype Option<+T> = None | Some(value: T)

  /** Numbers are integers here: the modelled code never computes with
      fractional numbers, and NaN is not represented. */
  datatype JsValue =
    | JsUndefined
    | JsNull
    | JsBool(b: bool)
    | JsNumber(n: int)
    | JsString(s: string)
    | JsArray(elems: seq<JsValue>)
    | JsObject(fields: map<string, JsValue>)

  predicate IsNullish(v: JsValue) {
    v.JsUndefined? || v.JsNull?
  }

  /** JavaScript's ToBoolean, the test behind `!v`, `if (v)` and `v || w`. */
  predicate Truthy(v: JsValue) {
    match v
    case JsUndefined => false
    case JsNull => false
    case JsBool(b) => b
    case JsNumber(n) => n != 0
    case JsString(s) => s != ""
    case JsArray(_) => true
    case JsObject(_) => true
  }

  /** `v || fallback` */
  function Or(v: JsValue, fallback: JsValue): JsValue {
    if Truthy(v) then v else fallback
  }

  /** Property read `v.key` on a value that is not null or undefined (reading
      a property of those throws a TypeError, which callers model themselves).
      Only own properties of objects and the `length` of arrays and strings
      are represented; none of the keys the modelled code reads is inherited. */
  function Field(v: JsValue, key: string): JsValue
    requires !IsNullish(v)
  {
    match v
    case JsObject(m) => if key in m then m[key] else JsUndefined
    case JsArray(es) => if key == "length" then JsNumber(|es|) else JsUndefined
    case JsString(s) => if key == "length" then JsNumber(|s|) else JsUndefined
    case _ => JsUndefined
  }

  function DigitChar(d: nat): char
    requires d < 10
  {
    "0123456789"[d]
  }

  function DecimalDigits(n: nat): string
    decreases n
  {
    if n < 10 then [DigitChar(n)] else DecimalDigits(n / 10) + [DigitChar(n % 10)]
  }

  /** Number-to-string conversion for integers. */
  function NumberToString(n: int): string {
    if n < 0 then "-" + DecimalDigits(-n) else DecimalDigits(n)
  }

  /** Whether JavaScript's ToString throws on `v`. A decoded JSON value holds
      no functions, so an object with an own `toString` key has no callable
      `toString` (and its `valueOf` gives back the object itself): converting
      it throws a TypeError. An array converts by joining its elements, so it
      throws when one of them does. */
  predicate CoercionThrows(v: JsValue)
    decreases v
  {
    match v
    case JsObject(fields) => "toString" in fields
    case JsArray(es) => exists i | 0 <= i < |es| :: CoercionThrows(es[i])
    case _ => false
  }

  /** JavaScript's ToString, as used by `String(v)` and by `RegExp.prototype.test`;
      None when it throws. Arrays join their elements with commas, null and
      undefined elements becoming empty. */
  function ToJsString(v: JsValue): (r: Option<string>)
    ensures r.None? <==> CoercionThrows(v)
    decreases v, 1
  {
    match v
    case JsUndefined => Some("undefined")
    case JsNull => Some("null")
    case JsBool(b) => Some(if b then "true" else "false")
    case JsNumber(n) => Some(NumberToString(n))
    case JsString(s) => Some(s)
    case JsArray(es) => JoinElements(v, 0)
    case JsObject(fields) => if "toString" in fields then None else Some("[object Object]")
  }

  /** `arr.join(",")` from element `from` on; None when converting one of
      those elements throws. */
  function JoinElements(arr: JsValue, from: nat): (r: Option<string>)
    requires arr.JsArray?
    ensures r.None? <==> exists i | from <= i < |arr.elems| :: CoercionThrows(arr.elems[i])
    decreases arr, 0, |arr.elems| - from
  {
    if from >= |arr.elems| then Some("")
    else
      var e := arr.elems[from];
      var text := if IsNullish(e) then Some("") else ToJsString(e);
      if text.None? then None
      else if from + 1 == |arr.elems| then text
      else
        match JoinElements(arr, from + 1)
        case None => None
        case Some(rest) => Some(text.value + "," + rest)
  }

  function ClampIndex(i: int, len: nat): nat {
    if i < 0 then 0 else if i > len then len else i
  }

  /** `s.substring(start, end)`: both bounds are clamped to the string and
      swapped when out of order. */
  function JsSubstring(s: string, start: int, end: int): (r: string)
    ensures |r| <= |s|
    ensures 0 <= start <= end <= |s| ==> r == s[start..end]
    ensures 0 <= start <= end ==> |r| <= end - start
  {
    var a := ClampIndex(start, |s|);
    var b := ClampIndex(end, |s|);
    if a <= b then s[a..b] else s[b..a]
  }

  /** The text of a number never contains `@`, so no number coerced to a
      string can pass an email check. */
  lemma {:induction false} DigitsHaveNoAt(n: nat)
    ensures '@' !in DecimalDigits(n)
  {
    if n >= 10 {
      DigitsHaveNoAt(n / 10);
    }
  }
}
