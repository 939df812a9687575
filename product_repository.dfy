/** The server-side product read of lib/db/repositories/ProductRepository.ts:
    `parseJsonField`, the row-to-product conversion and the fallbacks of
    `getAllProducts`, which returns an empty list instead of throwing. */
module ProductRepository {
  import opened JsValues
  import opened Catalog
  import DbServer

  /** `parseJsonField`: falsy input gives `[]`; a string gives its decoding,
      or `[]` when decoding throws; any other truthy value is returned as is.
      `parse` stands for `JSON.parse` (None: it throws). */
  function ParseJsonField(raw: JsValue, parse: string -> Option<JsValue>): (r: JsValue)
    ensures !Truthy(raw) ==> r == JsArray([])
    ensures Truthy(raw) && !raw.JsString? ==> r == raw
    ensures raw.JsString? && raw.s != "" ==> r == (match parse(raw.s) case Some(d) => d case None => JsArray([]))
  {
    if !Truthy(raw) then JsArray([])
    else if raw.JsString? then
      match parse(raw.s)
      case Some(decoded) => decoded
      case None => JsArray([])
    else raw
  }

  /** The two lenient decoders differ exactly on the falsy values that are not
      null or undefined and not the empty string, that is `0` and `false`:
      `safeJsonParse` returns those unchanged, `parseJsonField` turns them into
      `[]`. On the empty string both give `[]` as long as `JSON.parse("")`
      throws, which it does. */
  lemma DecodersDifferOnlyOnZeroAndFalse(raw: JsValue, parse: string -> Option<JsValue>)
    requires parse("").None?
    ensures ParseJsonField(raw, parse) != DbServer.SafeJsonParse(raw, parse)
        <==> raw == JsNumber(0) || raw == JsBool(false)
  {
  }

  /** A row of `SELECT id, name, ... FROM products`, column by column. */
  datatype Row = Row(
    id: JsValue,
    name: JsValue,
    description: JsValue,
    price: JsValue,
    category: JsValue,
    featured: JsValue,
    inStock: JsValue,
    rating: JsValue,
    reviewCount: JsValue,
    images: JsValue,
    sizes: JsValue,
    colors: JsValue)

  /** The outcome of the query: the driver threw, or it returned rows. */
  datatype QueryOutcome = QueryThrew | Rows(rows: seq<Row>)

  /** Whether every `String(...)` and `Number(...)` of the conversion
      succeeds. On these values both throw exactly where ToString does: an
      object with an own `toString` key, or an array holding one. */
  predicate RowConverts(row: Row) {
    && !CoercionThrows(row.id) && !CoercionThrows(row.name) && !CoercionThrows(row.description)
    && !CoercionThrows(row.price) && !CoercionThrows(row.category)
    && !CoercionThrows(row.rating) && !CoercionThrows(row.reviewCount)
  }

  /** The conversion inside `result.map(...)`; None when a coercion throws.
      `String(...)` is ToJsString, `Boolean(...)` is truthiness; `Number(...)`
      on a value it does not throw on is the parameter `toNumber`, since
      number parsing is not modelled. */
  function RowToProduct(row: Row, parse: string -> Option<JsValue>, toNumber: JsValue -> int): (p: Option<Product>)
    ensures p.Some? <==> RowConverts(row)
    ensures p.Some? ==> p.value.id == ToJsString(row.id).value && p.value.category == ToJsString(row.category).value
    ensures p.Some? ==> p.value.name == ToJsString(row.name).value && p.value.description == ToJsString(row.description).value
    ensures p.Some? ==> p.value.featured == Truthy(row.featured) && p.value.inStock == Truthy(row.inStock)
    ensures p.Some? ==> p.value.price == toNumber(row.price)
    ensures p.Some? ==> p.value.rating == toNumber(row.rating) && p.value.reviewCount == toNumber(row.reviewCount)
    ensures p.Some? ==> p.value.images == ParseJsonField(row.images, parse)
    ensures p.Some? ==> p.value.sizes == ParseJsonField(row.sizes, parse)
    ensures p.Some? ==> p.value.colors == ParseJsonField(row.colors, parse)
  {
    if !RowConverts(row) then None
    else
      Some(Product(
        id := ToJsString(row.id).value,
        name := ToJsString(row.name).value,
        description := ToJsString(row.description).value,
        price := toNumber(row.price),
        category := ToJsString(row.category).value,
        featured := Truthy(row.featured),
        inStock := Truthy(row.inStock),
        rating := toNumber(row.rating),
        reviewCount := toNumber(row.reviewCount),
        images := ParseJsonField(row.images, parse),
        sizes := ParseJsonField(row.sizes, parse),
        colors := ParseJsonField(row.colors, parse)))
  }

  /** `getAllProducts`: in the browser, when the query throws, or when a row's
      conversion throws, the result is `[]`; otherwise one product per row, in
      row order. It never throws. */
  function GetAllProducts(isBrowser: bool, query: QueryOutcome, parse: string -> Option<JsValue>, toNumber: JsValue -> int)
    : (products: seq<Product>)
    ensures isBrowser || query.QueryThrew? ==> products == []
    ensures !isBrowser && query.Rows? && (exists i | 0 <= i < |query.rows| :: !RowConverts(query.rows[i]))
      ==> products == []
    ensures !isBrowser && query.Rows? && (forall i | 0 <= i < |query.rows| :: RowConverts(query.rows[i])) ==>
      && |products| == |query.rows|
      && forall i | 0 <= i < |products| :: Some(products[i]) == RowToProduct(query.rows[i], parse, toNumber)
  {
    if isBrowser then []
    else
      match query
      case QueryThrew => []
      case Rows(rows) =>
        if |rows| == 0 || exists i | 0 <= i < |rows| :: !RowConverts(rows[i]) then []
        else seq(|rows|, i requires 0 <= i < |rows| && RowConverts(rows[i]) => RowToProduct(rows[i], parse, toNumber).value)
  }
}
