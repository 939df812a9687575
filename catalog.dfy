/** The product record the storefront passes between its data layer and its
    pages. Prices, ratings and review counts are JavaScript numbers; they are
    kept as opaque integers because nothing modelled computes with them. The
    list fields are whatever the lenient JSON decoding produced: the code casts
    them to string arrays without checking. */
module Catalog {
  import opened JsValues

  datatype Product = Product(
    id: string,
    name: string,
    description: string,
    price: int,
    category: string,
    featured: bool,
    inStock: bool,
    rating: int,
    reviewCount: int,
    images: JsValue,
    sizes: JsValue,
    colors: JsValue)
}
