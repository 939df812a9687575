/** `safeJsonParse` of lib/db/db-server.ts: decode a column that may hold a
    JSON text, never throwing. `JSON.parse` is the parameter `parse`, a partial
    function: None stands for the SyntaxError it throws. */
module DbServer {
  import opened JsValues

  function SafeJsonParse(value: JsValue, parse: string -> Option<JsValue>): (r: JsValue)
    ensures IsNullish(value) ==> r == JsArray([])
    ensures !IsNullish(value) && !value.JsString? ==> r == value
    ensures value.JsString? && parse(value.s).Some? ==> r == parse(value.s).value
    ensures value.JsString? && parse(value.s).None? ==> r == JsArray([])
  {
    if IsNullish(value) then JsArray([])
    else if !value.JsString? then value
    else
      match parse(value.s)
      case Some(decoded) => decoded
      case None => JsArray([])
  }
}
