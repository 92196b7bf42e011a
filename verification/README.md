# Storefront cart, catalogue views and session — a Dafny model

This project models the client-side logic of a small clothing storefront.
Products are fetched from a backend.

- **Shop context.** It holds the shopping cart and the session token. Every cart and token change is mirrored into browser storage, and both are restored from storage when the page loads.
- **Cart shape.** A cart maps product-id keys to maps from size to quantity.
- **Cart operations.** Add one unit, remove one unit, set a quantity, clear, count units, and total the price.
- **Collection page.** Filters the catalogue by a case-insensitive search and by the ticked categories. It then sorts by price in either direction.
- **Cart page.** Flattens the cart into one line per (product, size). It hides lines whose product is not in the catalogue, and reacts to the quantity box and the bin icon.
- **Cart total panel.** Adds a flat delivery fee to any non-zero subtotal.
- **Product card.** Resolves the image URL and the link to the product page.
- **Product page.** Covers the add-to-cart guard, the offered sizes, the rating request and the star row.
- **Orders page.** Deletes an order locally.

## How it is modelled

- Prices are integer cents, and the delivery fee of 10 dollars is `DeliveryFee == 1000`.
- Sums over a cart are ghost functions over maps (`Sums.SumBy`), proved independent of the key chosen. The storefront's counting loops (`GetCartCount`, `GetCartTotal`, `FlattenCart`) are compiled methods proved equal to those sums.
- JavaScript `Number(key)` is `Text.ParseNumber`. The empty string is 0. Decimal integers with an optional `-` are their value. Every other text is NaN (`None`), which matches no product id.
- Browser storage is a map of plain string keys plus a separate slot for the cart JSON. That slot holds either a cart that parses back or unparseable text.
- Every shop operation returns the state after React's effects have run. Memory and storage are therefore compared after each user action.

A quantity of zero or less does not delete the line: `updateQuantity` (src/context/ShopContext.jsx:137-138) calls `removeFromCart`, which takes away one unit. See `ShopCart.UpdateNonPositiveIsSingleRemoval`, `CartPage.BinClickRemovesOneUnit` and `CartPage.BinClickOnTwoUnits`.

## Model

| member | source | states |
|---|---|---|
| Catalog.FindById | src/context/ShopContext.jsx:165 | the product found has the requested id and is the first such product; none is found when no id matches or the key is NaN |
| Text.ParseNumber | src/context/ShopContext.jsx:165 | `Number(key)`: the empty key is 0; a key that parses is a decimal integer, negative only with a leading `-`; anything else is NaN |
| Text.IntToStringRoundTrip | src/components/ProductItem.jsx:18 | a numeric id written into a string and read back with `Number` gives the same id |
| Text.ToLower | src/pages/Collection.jsx:29 | lower-casing keeps the length and lowers each character independently |
| Text.ToLowerIdempotent | src/pages/Collection.jsx:29 | lower-casing a lowered string changes nothing |
| ShopCart.AddToCart | src/context/ShopContext.jsx:87-103 | an empty size leaves the cart unchanged; otherwise the (id, size) count rises by one, from 0 when absent, and every other entry stays as it was |
| ShopCart.AddToCartCount | src/context/ShopContext.jsx:87-103 | adding with a size raises the total unit count by exactly one |
| ShopCart.AddToCartTotal | src/context/ShopContext.jsx:87-103 | adding with a size raises the cart total by the product's current price, or by 0 when the product is not in the catalogue |
| ShopCart.RemoveFromCart | src/context/ShopContext.jsx:106-123 | the cart is unchanged unless the (id, size) count is truthy; otherwise it drops by one, the size key goes when it hits zero, the id goes when its last size goes, and all else is unchanged |
| ShopCart.Decrement | src/context/ShopContext.jsx:109-114 | the given size's count drops by one and its key is deleted exactly when it was 1; every other size keeps its count |
| ShopCart.RemoveFromCartCount | src/context/ShopContext.jsx:106-123 | a removal that applies lowers the unit count by exactly one |
| ShopCart.AddThenRemove | src/context/ShopContext.jsx:87-123 | on a well-formed cart, removing the unit just added restores the cart exactly |
| ShopCart.RemoveThenAdd | src/context/ShopContext.jsx:87-123 | adding back a unit just removed restores the cart exactly |
| ShopCart.DecrementAfterIncrement | src/context/ShopContext.jsx:96-113 | taking one unit from a size just raised by one gives back the sizes map |
| ShopCart.IncrementAfterDecrement | src/context/ShopContext.jsx:96-113 | raising a size just lowered by one gives back the sizes map |
| ShopCart.UpdateQuantity | src/context/ShopContext.jsx:133-148 | a positive quantity sets the (id, size) count and keeps the product's other sizes only when that size was already present; a quantity of zero or less behaves as one removal |
| ShopCart.UpdateQuantityCount | src/context/ShopContext.jsx:139-147 | setting a positive quantity changes the unit count by the difference to the old count, or replaces the product's whole count when the size was new |
| ShopCart.UpdateNonPositiveIsSingleRemoval | src/context/ShopContext.jsx:137-138 | a quantity of zero or less is exactly `removeFromCart`, so a line of several units keeps all but one |
| ShopCart.UpdateNewSizeDropsOtherSizes | src/context/ShopContext.jsx:142-143 | setting a quantity for a size the product did not have discards the product's other sizes |
| ShopCart.ClearCart | src/context/ShopContext.jsx:126-130 | the cleared cart holds no units and totals 0 against any catalogue |
| ShopCart.RemovePreservesWellFormed | src/context/ShopContext.jsx:106-123 | removal keeps every stored count positive and every product entry non-empty |
| ShopCart.UpdatePreservesWellFormed | src/context/ShopContext.jsx:133-148 | updating keeps every stored count positive and every product entry non-empty |
| ShopCart.CountZeroIffEmpty | src/context/ShopContext.jsx:151-159 | in a well-formed cart the unit count is zero exactly when the cart is empty |
| ShopCart.GetCartCount | src/context/ShopContext.jsx:151-159 | the nested loop returns the sum of all quantities |
| ShopCart.GetCartTotal | src/context/ShopContext.jsx:162-173 | the nested loop returns, over products found in the catalogue, the quantity times the current price |
| ShopCart.LineTotalIsPriceTimesCount | src/context/ShopContext.jsx:165-170 | one product's contribution is its current price times its unit count, or 0 when the catalogue lacks it |
| ShopCart.TotalSkipsUnknownProduct | src/context/ShopContext.jsx:165-166 | a cart entry whose key matches no product adds nothing to the total |
| ShopCart.TotalNonNegative | src/context/ShopContext.jsx:162-173 | with non-negative prices, a well-formed cart totals at least 0 |
| ShopCart.ScenarioAddTwice | src/context/ShopContext.jsx:95-98 | adding size M of product p1 twice to an empty cart holds two units |
| ShopCart.ScenarioRemoveTwice | src/context/ShopContext.jsx:109-118 | removing twice from two units empties the cart entirely |
| ShopState.LoadCart | src/context/ShopContext.jsx:25-33 | a non-empty initial cart is one read back from storage; missing or unparseable data gives the empty cart |
| ShopState.SaveCart | src/context/ShopContext.jsx:50-56 | what the cart effect stores loads back as the same cart, and no other key changes |
| ShopState.LoadToken | src/context/ShopContext.jsx:16-23 | the initial token is the stored token when truthy, null otherwise |
| ShopState.SyncToken | src/context/ShopContext.jsx:59-69 | the token effect stores a truthy token, removes the key otherwise, and changes no other key |
| ShopState.Mount | src/context/ShopContext.jsx:16-33 | the mounted state holds the loaded cart and token, is consistent with storage, and keeps the other keys |
| ShopState.Commit | src/context/ShopContext.jsx:50-56 | a new cart with its effect run keeps memory and storage consistent |
| ShopState.AddItem | src/context/ShopContext.jsx:87-103 | adding keeps memory and storage consistent, leaves the token and every plain storage key alone, and with no size changes nothing |
| ShopState.RemoveItem | src/context/ShopContext.jsx:106-123 | removing keeps consistency, leaves the token and every plain storage key alone, and changes nothing when the removal does not apply |
| ShopState.UpdateItem | src/context/ShopContext.jsx:133-148 | updating keeps consistency and leaves the token and every plain storage key alone |
| ShopState.Clear | src/context/ShopContext.jsx:126-130 | clearing empties the cart, the cart effect writes the empty cart back after the key was removed, and the plain storage keys are untouched |
| ShopState.Login | src/context/ShopContext.jsx:72-76 | the token is set in memory and stored when non-empty; only the token key changes |
| ShopState.Logout | src/context/ShopContext.jsx:79-84 | the token is null, its key is absent, and the cart and the other keys are untouched |
| ShopState.LoginThenLogout | src/context/ShopContext.jsx:72-84 | logging in and out leaves no token to reload and the cart as it was |
| ShopState.TokenSurvivesReload | src/context/ShopContext.jsx:16-33 | reloading from the storage of a consistent state gives back its cart and its truthy token |
| ShopState.RunPreserves | src/context/ShopContext.jsx:87-148 | any sequence of cart and session actions keeps memory and storage consistent and, with integer quantities, the cart well-formed, given that storage writes never fail |
| ShopState.ScenarioLoginLogout | src/context/ShopContext.jsx:79-84 | after logging in with "abc" and out again, no token is held or stored |
| Seqs.SortByStable | src/pages/Collection.jsx:41-50 | the sort used for price ordering keeps items of equal key in their original relative order |
| Collection.FilterStepsArePasses | src/pages/Collection.jsx:26-38 | the search filter followed by the category filter selects exactly the products passing both tests, in catalogue order |
| Collection.ApplyFilterAndSort | src/pages/Collection.jsx:18-53 | with no products the shown list stays as it was; otherwise it is a permutation of the passing products, holding all of them and nothing else; it is ascending or descending by price for the two sort modes and in catalogue order for any other |
| Collection.NoFiltersShowAll | src/pages/Collection.jsx:19-50 | with no search text, no category and the default order, the whole catalogue is shown in its original order |
| Collection.SortKeepsEqualPricesInOrder | src/pages/Collection.jsx:41-50 | products with equal price appear in the order they had after filtering |
| Collection.ToggleCategory | src/pages/Collection.jsx:77-83 | the toggled name is selected exactly when it was not; other names keep their state; a new name goes at the end |
| Collection.ToggleKeepsDistinct | src/pages/Collection.jsx:77-83 | toggling never selects a name twice |
| Collection.ToggleTwiceRestores | src/pages/Collection.jsx:77-83 | ticking and unticking an unselected name restores the list exactly |
| Collection.ToggleTwiceSameSelection | src/pages/Collection.jsx:77-83 | toggling a name twice always restores which names are selected |
| Collection.ToggleTwiceMovesToEnd | src/pages/Collection.jsx:77-83 | unticking and reticking a selected name moves it to the end of the list |
| CartPage.FlattenCart | src/pages/Cart.jsx:16-31 | the lines are exactly the positive (id, size, quantity) entries, one per entry; on a well-formed cart their quantities add up to the cart's unit count |
| CartPage.PositiveCountOfWellFormed | src/pages/Cart.jsx:20 | skipping non-positive quantities loses nothing on a well-formed cart |
| CartPage.VisibleLines | src/pages/Cart.jsx:34-52 | a line is rendered exactly when its key finds a product in the catalogue |
| CartPage.OnQuantityInput | src/pages/Cart.jsx:77-81 | "" and "0" are ignored; any other value is passed on as `Number(value)` |
| CartPage.ApplyQuantityInput | src/pages/Cart.jsx:77-81 | an ignored value leaves the cart alone, an integer value sets the quantity, and with integer quantities well-formedness is kept |
| CartPage.DoubleZeroRemovesOneUnit | src/pages/Cart.jsx:77-81 | typing "00" is not ignored: it is quantity 0 and removes one unit |
| CartPage.BinClick | src/pages/Cart.jsx:90 | the bin icon performs one `removeFromCart` on its line |
| CartPage.BinClickRemovesOneUnit | src/pages/Cart.jsx:90 | the bin on a displayed line lowers the unit count by one, not by the line's quantity |
| CartPage.BinClickOnTwoUnits | src/pages/Cart.jsx:90 | the bin on a line of two units leaves one unit |
| CartTotals.ShippingFee | src/components/CartTotal.jsx:34 | the shipping fee is 0 exactly when the subtotal is 0, and the delivery fee otherwise |
| CartTotals.GrandTotal | src/components/CartTotal.jsx:43 | the total is the subtotal plus shipping; it is 0 exactly when a non-negative subtotal is 0 |
| CartTotals.ComputeTotals | src/components/CartTotal.jsx:9-43 | the subtotal is the context's cart total; an empty cart shows all zeros |
| CartTotals.TotalsNonNegative | src/components/CartTotal.jsx:9-43 | with non-negative prices, 0 <= subtotal <= total |
| ProductItem.ImageUrl | src/components/ProductItem.jsx:9-11 | the first array element, else the non-empty string, else the placeholder; an empty array yields no URL |
| ProductItem.FullImageUrl | src/components/ProductItem.jsx:14 | the result always starts with "http"; absolute URLs pass through; relative ones get the backend origin prepended and remain a suffix |
| ProductItem.FullImageUrlIdempotent | src/components/ProductItem.jsx:14 | resolving an already resolved URL changes nothing |
| ProductItem.CardImage | src/components/ProductItem.jsx:9-14 | every card but one with an empty image array shows an absolute URL |
| ProductItem.LinkTarget | src/components/ProductItem.jsx:18 | the link is under `/product/`, and its route parameter parses back to the product id |
| ProductPage.HandleAddToCart | src/pages/Product.jsx:49-56 | with no size selected the cart is untouched; otherwise one unit is added under the route id |
| ProductPage.AddedFromCardIsPriced | src/pages/Product.jsx:49-56 | a product reached through its card and added with a size adds one unit and its current price to the cart total |
| ProductPage.AvailableSizes | src/pages/Product.jsx:114 | a non-empty size array is offered as is; otherwise S, M, L, XL |
| ProductPage.SubmitRating | src/pages/Product.jsx:62-99 | rating 0 is refused first, then a missing or empty access token; otherwise the form carries the rating as a string that parses back, the stored user id or "1", and the route id, with the access token as bearer |
| ProductPage.RatingIgnoresSessionToken | src/pages/Product.jsx:68 | the rating check reads only the access-token key, so the context's session token does not affect it |
| ProductPage.StarRow | src/pages/Product.jsx:165-171 | five stars whose highlighted ones are a prefix, as many as the rating clamped to 0..5 |
| ProductPage.ClickStar | src/pages/Product.jsx:58-66 | clicking star n lights n stars and lets the rating through the first check |
| Orders.DeleteOrder | src/pages/Orders.jsx:36-38 | no remaining order has the id; every other order remains; the list shrinks when the id was present |
| Orders.DeleteKeepsOrder | src/pages/Orders.jsx:37 | the remaining orders keep their relative order |
| Orders.DeleteIdempotent | src/pages/Orders.jsx:37 | deleting the same id twice is deleting it once |
| Orders.DeleteAbsentId | src/pages/Orders.jsx:37 | deleting an id no order has changes nothing |

## Left out

- Fetching products, orders and a single product from the backend, and posting the rating: the network is outside the model. `SubmitRating` stops at the request it would send. The error path after a failed request (lines 94-97 of src/pages/Product.jsx) is not modelled.
- Storage failures: the try/catch paths of src/context/ShopContext.jsx:17-22, 51-55 and 60-68 are not modelled. Those paths cover quota exceeded and storage being disabled. In the model every storage write succeeds. The storefront would keep the new in-memory state there and leave storage stale. ShopState.RunPreserves therefore holds only for storage that never fails. The one failure that is modelled is a saved cart that does not parse (lines 26-32).
- CartPage.FlattenCart: does not fix the order of the lines. The storefront emits them in JavaScript's `for…in` key order (src/pages/Cart.jsx:18-19). The contract states which lines exist, not their order.
- JSON serialisation of the cart: the storage slot holds the cart value itself, or a marker for text that does not parse.
- Toasts, console logging, navigation and loading flags: they are side effects with no state the model keeps.
- React's timing: each operation is followed immediately by its effects, and state updates are not batched.
- React's aliasing: `{ ...cartItems }` copies only the outer object, so the in-place size edits also change the previous state object. The model treats each cart as a value.
- Floating-point prices and `toFixed(2)`: prices are integer cents, and a formatted amount is not modelled.
- Text.ToLower: lowers ASCII letters only. JavaScript's `toLowerCase` also lowers other Unicode letters.
- Text.ParseNumber: models only decimal integers and the empty string. `Number` also accepts decimals, exponents, hex, a leading `+`, `Infinity` and surrounding white space.
- CartPage.OnQuantityInput: a value `Number` reads as a fraction, an exponent form or NaN becomes `NonInteger`. The storefront would pass that number on to `updateQuantity`.
- CartPage.ApplyQuantityInput: leaves the cart unchanged on `NonInteger`. The storefront would store the fractional or NaN quantity. Typing "0.5" passes `Number("0.5")` to `updateQuantity`, which stores 0.5 (src/pages/Cart.jsx:77-80, src/context/ShopContext.jsx:137-141). A bin click then leaves -0.5 (src/context/ShopContext.jsx:109-113): that is neither zero nor falsy, so the line is never deleted. The cart page hides it through its `> 0` test (src/pages/Cart.jsx:20), but `getCartCount` and `getCartTotal` still add it in (src/context/ShopContext.jsx:151-173). Well-formedness therefore holds only for integer quantities.
- ShopState.RunPreserves: the `Update` action carries only integer quantities, so a fractional quantity and the negative line it can leave behind are outside its claim.
- The product page's image preview and default field values (src/pages/Product.jsx:101-112, 121-125): display only.
- The login page (src/pages/Login.jsx) is not part of this model. It writes only the `accessToken` key (src/pages/Login.jsx:35), a plain storage entry. No page of the storefront writes `userId`; the product page only reads it (src/pages/Product.jsx:77). So with the storefront as it stands, `ProductPage.SubmitRating` always sends the default user "1".
- Search visibility (`showSearch`) and the currency symbol: display state only.
