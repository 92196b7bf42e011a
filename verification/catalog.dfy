/**
 * The product records the backend serves and the one lookup the storefront
 * performs on them: `products.find((p) => p.id === Number(key))`.
 * Prices are integer cents.
 */
module Catalog {
  import opened Wrappers

  /** The `image` field: an array of URLs, a single URL string, or missing. */
  datatype Image = ImageList(urls: seq<string>) | ImageText(url: string) | NoImage

  /** The `sizes` field: an array of size names, or missing / not an array. */
  datatype SizeField = SizeArray(names: seq<string>) | NoSizes

  datatype Product = Product(
    id: int,
    name: string,
    category: string,
    price: int,          // the list price the collection page sorts by
    currentPrice: int,   // the price the cart total multiplies by
    image: Image,
    sizes: SizeField)

  /**
   * The first product whose id equals `id`; `None` when there is none, and
   * also when `id` is NaN (`None`), since NaN equals nothing.
   */
  function FindById(products: seq<Product>, id: Option<int>): (r: Option<Product>)
    ensures r.Some? ==> id.Some? && r.value in products && r.value.id == id.value
    ensures r.None? ==> id.None? || forall i :: 0 <= i < |products| ==> products[i].id != id.value
    ensures r.Some? ==> exists i :: 0 <= i < |products| && products[i] == r.value && forall j :: 0 <= j < i ==> products[j].id != id.value
  {
    if id.None? || products == [] then None
    else if products[0].id == id.value then Some(products[0])
    else FindById(products[1..], id)
  }
}
