/**
 * The product page: the add-to-cart guard, the size buttons offered, the
 * checks made before a rating is sent and the form it sends, and the star
 * highlighting.
 */
module ProductPage {
  import opened Wrappers
  import opened Text
  import opened Catalog
  import opened ShopCart
  import opened ShopState
  import ProductItem

  /** What pressing "ADD TO CART" does. */
  datatype AddOutcome = SizeRequired | Added(cart: Cart)

  /** `handleAddToCart`: without a selected size an error is shown and the cart is not touched. */
  function HandleAddToCart(cart: Cart, routeId: string, selectedSize: string): (o: AddOutcome)
    ensures o.SizeRequired? <==> selectedSize == ""
    ensures o.Added? ==> o.cart == AddToCart(cart, routeId, selectedSize)
    ensures o.Added? ==> Qty(o.cart, routeId, selectedSize) == Qty(cart, routeId, selectedSize) + 1
  {
    if selectedSize == "" then SizeRequired else Added(AddToCart(cart, routeId, selectedSize))
  }

  /**
   * A product reached through its card is added under the key its card
   * linked to, and the cart total finds the product again under that key
   * (when no earlier catalog entry has the same id).
   */
  lemma AddedFromCardIsPriced(cart: Cart, catalog: seq<Product>, k: nat, size: string)
    requires k < |catalog| && size != ""
    requires forall j :: 0 <= j < k ==> catalog[j].id != catalog[k].id
    ensures var routeId := ProductItem.RouteId(ProductItem.LinkTarget(catalog[k].id));
      HandleAddToCart(cart, routeId, size).Added? &&
      CartCount(HandleAddToCart(cart, routeId, size).cart) == CartCount(cart) + 1 &&
      CartTotal(HandleAddToCart(cart, routeId, size).cart, catalog) == CartTotal(cart, catalog) + catalog[k].currentPrice
  {
    var routeId := ProductItem.RouteId(ProductItem.LinkTarget(catalog[k].id));
    AddToCartCount(cart, routeId, size);
    AddToCartTotal(cart, catalog, routeId, size);
    var found := FindById(catalog, ParseNumber(routeId));
    assert found.Some?;
    var i :| 0 <= i < |catalog| && catalog[i] == found.value && forall j :: 0 <= j < i ==> catalog[j].id != catalog[k].id;
    assert i == k;
  }

  const DefaultSizes: seq<string> := ["S", "M", "L", "XL"]

  /** `availableSizes`: the product's own sizes when it lists any, the four standard sizes otherwise. */
  function AvailableSizes(sizes: SizeField): (offered: seq<string>)
    ensures |offered| > 0
    ensures sizes.SizeArray? && |sizes.names| > 0 ==> offered == sizes.names
    ensures sizes.NoSizes? || sizes == SizeArray([]) ==> offered == DefaultSizes
    ensures forall i :: 0 <= i < |offered| ==> offered[i] in DefaultSizes || (sizes.SizeArray? && offered[i] in sizes.names)
  {
    if sizes.SizeArray? && |sizes.names| > 0 then sizes.names else DefaultSizes
  }

  // ---------------------------------------------------------------------------
  // Rating

  const AccessTokenKey: string := "accessToken"
  const UserIdKey: string := "userId"
  const DefaultUserId: string := "1"

  /** The multipart form the rating request carries. */
  datatype RatingForm = RatingForm(rating: string, user: string, product: string)

  /** Where `submitRating` ends before the request, or the request it sends. */
  datatype RatingStep =
    | NeedRating                                 // no star chosen
    | NeedLogin                                  // no access token: redirect to the login page
    | Post(form: RatingForm, bearer: string)     // POST with `Authorization: Bearer <bearer>`

  /** `submitRating`, up to the request. */
  function SubmitRating(rating: int, st: Storage, routeId: string): (step: RatingStep)
    ensures step.NeedRating? <==> rating == 0
    ensures step.NeedLogin? <==> rating != 0 && !Truthy(GetItem(st, AccessTokenKey))
    ensures step.Post? ==> ParseNumber(step.form.rating) == Some(rating)
    ensures step.Post? ==> Some(step.bearer) == GetItem(st, AccessTokenKey) && step.bearer != ""
    ensures step.Post? ==> step.form.product == routeId
    ensures step.Post? ==> step.form.user != ""
    ensures step.Post? && Truthy(GetItem(st, UserIdKey)) ==> Some(step.form.user) == GetItem(st, UserIdKey)
    ensures step.Post? && !Truthy(GetItem(st, UserIdKey)) ==> step.form.user == DefaultUserId
  {
    if rating == 0 then NeedRating
    else if !Truthy(GetItem(st, AccessTokenKey)) then NeedLogin
    else
      IntToStringRoundTrip(rating);
      var user := if Truthy(GetItem(st, UserIdKey)) then GetItem(st, UserIdKey).value else DefaultUserId;
      Post(RatingForm(IntToString(rating), user, routeId), GetItem(st, AccessTokenKey).value)
  }

  /** The context's `userToken` plays no part: only the `accessToken` key decides whether a rating is sent. */
  lemma RatingIgnoresSessionToken(rating: int, st: Storage, routeId: string, token: string)
    ensures SubmitRating(rating, st, routeId) == SubmitRating(rating, SyncToken(st, Some(token)), routeId)
  {
  }

  // ---------------------------------------------------------------------------
  // Stars

  /** Star `star` (1 to 5) is drawn highlighted when `rating >= star`. */
  predicate Highlighted(rating: int, star: int) {
    rating >= star
  }

  /**
   * The five stars, left to right. The highlighted ones form a prefix of the
   * row, as many as the rating clamped to 0..5.
   */
  function StarRow(rating: int): (row: seq<bool>)
    ensures |row| == 5
    ensures forall i, j :: 0 <= i < j < 5 && row[j] ==> row[i]
    ensures CountHighlighted(row) == if rating <= 0 then 0 else if rating >= 5 then 5 else rating
  {
    var b := [Highlighted(rating, 1), Highlighted(rating, 2), Highlighted(rating, 3),
              Highlighted(rating, 4), Highlighted(rating, 5)];
    CountFive(b);
    b
  }

  function CountHighlighted(row: seq<bool>): nat {
    if row == [] then 0 else (if row[0] then 1 else 0) + CountHighlighted(row[1..])
  }

  /** Unfolds the count of a five-star row. */
  lemma CountFive(b: seq<bool>)
    requires |b| == 5
    ensures CountHighlighted(b) ==
      (if b[0] then 1 else 0) + (if b[1] then 1 else 0) + (if b[2] then 1 else 0) +
      (if b[3] then 1 else 0) + (if b[4] then 1 else 0)
  {
    assert CountHighlighted(b[4..]) == (if b[4] then 1 else 0) by {
      assert b[4..][1..] == [];
    }
    assert CountHighlighted(b[3..]) == (if b[3] then 1 else 0) + CountHighlighted(b[4..]) by {
      assert b[3..][1..] == b[4..];
    }
    assert CountHighlighted(b[2..]) == (if b[2] then 1 else 0) + CountHighlighted(b[3..]) by {
      assert b[2..][1..] == b[3..];
    }
    assert CountHighlighted(b[1..]) == (if b[1] then 1 else 0) + CountHighlighted(b[2..]) by {
      assert b[1..][1..] == b[2..];
    }
  }

  /** Clicking star n sets the rating to n: exactly n stars light up and the rating is no longer refused. */
  lemma ClickStar(n: int, st: Storage, routeId: string)
    requires 1 <= n <= 5
    ensures CountHighlighted(StarRow(n)) == n
    ensures !SubmitRating(n, st, routeId).NeedRating?
  {
  }
}
