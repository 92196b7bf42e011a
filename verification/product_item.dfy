/**
 * The product card: which image URL it shows and where it links.
 */
module ProductItem {
  import opened Wrappers
  import opened Text
  import opened Catalog

  const Placeholder: string := "/path/to/placeholder.jpg"
  const BackendBase: string := "http://127.0.0.1:8000"
  const ProductRoute: string := "/product/"

  /**
   * `imageUrl`: the first URL of an array, else the string itself, else the
   * placeholder. The first element of an empty array is `undefined`, on which
   * the card's `startsWith` call throws: that case is `None`.
   */
  function ImageUrl(image: Image): (url: Option<string>)
    ensures url.None? <==> image == ImageList([])
    ensures image.ImageList? && url.Some? ==> url.value == image.urls[0]
    ensures image.ImageText? && image.url != "" ==> url == Some(image.url)
    ensures image.NoImage? || image == ImageText("") ==> url == Some(Placeholder)
  {
    match image
    case ImageList(urls) => if |urls| > 0 then Some(urls[0]) else None
    case ImageText(text) => if text != "" then Some(text) else Some(Placeholder)
    case NoImage => Some(Placeholder)
  }

  /** `fullImageUrl`: a URL not starting with "http" is taken as a path on the backend. */
  function FullImageUrl(url: string): (full: string)
    ensures StartsWith(full, "http")
    ensures StartsWith(url, "http") ==> full == url
    ensures !StartsWith(url, "http") ==> StartsWith(full, BackendBase) && full[|BackendBase|..] == url
  {
    if StartsWith(url, "http") then url else BackendBase + url
  }

  /** Resolving an already resolved URL changes nothing. */
  lemma FullImageUrlIdempotent(url: string)
    ensures FullImageUrl(FullImageUrl(url)) == FullImageUrl(url)
  {
  }

  /** The card's image source: an absolute URL for every image field except the empty array, on which rendering fails. */
  function CardImage(image: Image): (src: Option<string>)
    ensures src.None? <==> image == ImageList([])
    ensures src.Some? ==> StartsWith(src.value, "http")
    ensures src.Some? ==> src.value == FullImageUrl(ImageUrl(image).value)
  {
    match ImageUrl(image)
    case Some(url) => Some(FullImageUrl(url))
    case None => None
  }

  /** The link target `/product/${id}`. */
  function LinkTarget(id: int): (target: string)
    ensures StartsWith(target, ProductRoute)
    ensures ParseNumber(RouteId(target)) == Some(id)
  {
    IntToStringRoundTrip(id);
    assert (ProductRoute + IntToString(id))[|ProductRoute|..] == IntToString(id);
    ProductRoute + IntToString(id)
  }

  /** The `:id` parameter the router extracts from a product path. */
  function RouteId(target: string): string
    requires StartsWith(target, ProductRoute)
  {
    target[|ProductRoute|..]
  }
}
