/**
 * The shopping-cart container of the shop context: a two-level map from
 * product id (the route's id text) to size name to quantity, and the
 * operations the context exposes on it. Each operation returns the new cart
 * (the storefront copies the cart and passes the copy to the state setter).
 */
module ShopCart {
  import opened Wrappers
  import opened Sums
  import opened Text
  import opened Catalog

  type Sizes = map<string, int>
  type Cart = map<string, Sizes>

  /** The quantity at (id, size); an absent entry reads as 0, as `(x || 0)` does. */
  function Qty(cart: Cart, id: string, size: string): int {
    if id in cart && size in cart[id] then cart[id][size] else 0
  }

  /** The cart invariant: every stored quantity is at least 1 and no product has an empty size map. */
  ghost predicate WellFormed(cart: Cart) {
    forall id :: id in cart ==> cart[id] != map[] && forall size :: size in cart[id] ==> cart[id][size] >= 1
  }

  // ---------------------------------------------------------------------------
  // Reference sums: the item count and the price total, independent of any
  // visiting order.

  function QtyTerm(size: string, quantity: int): int {
    quantity
  }

  /** The number of units in one product's size map. */
  ghost function SizesCount(sizes: Sizes): int {
    SumBy(sizes, QtyTerm)
  }

  ghost function CountTerm(id: string, sizes: Sizes): int {
    SizesCount(sizes)
  }

  /** The number of units in the whole cart. */
  ghost function CartCount(cart: Cart): int {
    SumBy(cart, CountTerm)
  }

  function PriceTerm(price: int): (string, int) -> int {
    (size, quantity) => quantity * price
  }

  /** What one product's sizes contribute to the total: 0 when the catalog has no such product. */
  ghost function LineTotal(catalog: seq<Product>, id: string, sizes: Sizes): int {
    match FindById(catalog, ParseNumber(id))
    case None => 0
    case Some(product) => SumBy(sizes, PriceTerm(product.currentPrice))
  }

  ghost function TotalTerm(catalog: seq<Product>): (string, Sizes) -> int {
    (id, sizes) => LineTotal(catalog, id, sizes)
  }

  /** The price of the whole cart against `catalog`. */
  ghost function CartTotal(cart: Cart, catalog: seq<Product>): int {
    SumBy(cart, TotalTerm(catalog))
  }

  // ---------------------------------------------------------------------------
  // Operations

  /**
   * `addToCart(id, size)`: an empty size is refused and leaves the cart as it
   * is; otherwise one unit is added at (id, size), creating the entry at 1.
   */
  function AddToCart(cart: Cart, id: string, size: string): (r: Cart)
    ensures size == "" ==> r == cart
    ensures size != "" ==> r.Keys == cart.Keys + {id} && size in r[id] && r[id][size] == Qty(cart, id, size) + 1
    ensures forall other :: other in cart && other != id ==> r[other] == cart[other]
    ensures size != "" ==> forall s :: s in r[id] && s != size ==> id in cart && s in cart[id] && r[id][s] == cart[id][s]
    ensures id in cart ==> forall s :: s in cart[id] ==> s in r[id]
    ensures WellFormed(cart) ==> WellFormed(r)
  {
    if size == "" then cart
    else if id in cart then cart[id := Increment(cart[id], size)]
    else cart[id := map[size := 1]]
  }

  /** The entry (id, size) exists with a non-zero quantity: the guard of `removeFromCart`. */
  predicate Removable(cart: Cart, id: string, size: string) {
    id in cart && size in cart[id] && cart[id][size] != 0
  }

  /**
   * `removeFromCart(id, size)`: one unit less at (id, size); the size is
   * deleted when its quantity reaches 0 and the product when it has no sizes
   * left. Nothing happens when the entry is absent or zero.
   */
  function RemoveFromCart(cart: Cart, id: string, size: string): (r: Cart)
    ensures !Removable(cart, id, size) ==> r == cart
    ensures Removable(cart, id, size) ==> Qty(r, id, size) == cart[id][size] - 1
    ensures Removable(cart, id, size) ==> (id in r && size in r[id] <==> cart[id][size] != 1)
    ensures Removable(cart, id, size) ==> (id !in r <==> cart[id].Keys == {size} && cart[id][size] == 1)
    ensures r.Keys <= cart.Keys
    ensures forall other :: other in cart && other != id ==> other in r && r[other] == cart[other]
    ensures id in r ==> forall s :: s != size ==> (s in r[id] <==> s in cart[id])
    ensures id in r ==> forall s :: s in r[id] && s != size ==> r[id][s] == cart[id][s]
  {
    if Removable(cart, id, size) then
      var sizes := Decrement(cart[id], size);
      if |sizes| == 0 then cart - {id} else cart[id := sizes]
    else cart
  }

  /** One unit less of `size`; the size disappears when its quantity reaches 0. */
  function Decrement(sizes: Sizes, size: string): (r: Sizes)
    requires size in sizes
    ensures r.Keys == if sizes[size] == 1 then sizes.Keys - {size} else sizes.Keys
    ensures sizes[size] != 1 ==> size in r && r[size] == sizes[size] - 1
    ensures forall s :: s in r && s != size ==> r[s] == sizes[s]
    ensures SizesCount(r) == SizesCount(sizes) - 1
  {
    var quantity := sizes[size] - 1;
    if quantity == 0 then
      SumByRemove(sizes, QtyTerm, size);
      sizes - {size}
    else
      SumByUpdate(sizes, QtyTerm, size, quantity);
      sizes[size := quantity]
  }

  /**
   * `updateQuantity(id, size, quantity)`. A quantity of 0 or less calls
   * `removeFromCart`, which takes away a single unit. A positive quantity
   * overwrites an existing (id, size) entry, but when that size is not yet in
   * the cart the product's whole size map is replaced by `{size: quantity}`.
   */
  function UpdateQuantity(cart: Cart, id: string, size: string, quantity: int): (r: Cart)
    ensures quantity > 0 ==> r.Keys == cart.Keys + {id} && size in r[id] && r[id][size] == quantity
    ensures quantity > 0 ==> forall other :: other in cart && other != id ==> r[other] == cart[other]
    ensures quantity > 0 && id in cart && size in cart[id] ==> r[id].Keys == cart[id].Keys
    ensures quantity > 0 && id in cart && size in cart[id] ==> forall s :: s in cart[id] && s != size ==> r[id][s] == cart[id][s]
    ensures quantity > 0 && !(id in cart && size in cart[id]) ==> r[id].Keys == {size}
    ensures quantity <= 0 && Removable(cart, id, size) ==> Qty(r, id, size) == Qty(cart, id, size) - 1
    ensures quantity <= 0 && !Removable(cart, id, size) ==> r == cart
  {
    if quantity <= 0 then RemoveFromCart(cart, id, size)
    else if id in cart && size in cart[id] then cart[id := cart[id][size := quantity]]
    else cart[id := map[size := quantity]]
  }

  /** `clearCart()`: the empty cart, which holds no units and costs nothing. */
  function ClearCart(): (r: Cart)
    ensures WellFormed(r)
    ensures forall id, size :: Qty(r, id, size) == 0
    ensures CartCount(r) == 0
    ensures forall catalog :: CartTotal(r, catalog) == 0
  {
    map[]
  }

  // ---------------------------------------------------------------------------
  // The invariant is kept by every operation.

  lemma RemovePreservesWellFormed(cart: Cart, id: string, size: string)
    ensures WellFormed(cart) ==> WellFormed(RemoveFromCart(cart, id, size))
  {
  }

  lemma UpdatePreservesWellFormed(cart: Cart, id: string, size: string, quantity: int)
    ensures WellFormed(cart) ==> WellFormed(UpdateQuantity(cart, id, size, quantity))
  {
    if quantity <= 0 {
      RemovePreservesWellFormed(cart, id, size);
    }
  }

  // ---------------------------------------------------------------------------
  // How each operation moves the item count and the total.

  /** A single-entry size map holds exactly its one quantity. */
  lemma SingletonCount(size: string, quantity: int)
    ensures SizesCount(map[size := quantity]) == quantity
  {
    SumByUpdate(map[], QtyTerm, size, quantity);
    assert map[][size := quantity] == map[size := quantity];
  }

  /** Adding a unit raises the item count by exactly one. */
  lemma AddToCartCount(cart: Cart, id: string, size: string)
    requires size != ""
    ensures CartCount(AddToCart(cart, id, size)) == CartCount(cart) + 1
  {
    var r := AddToCart(cart, id, size);
    if id in cart {
      var sizes := cart[id][size := Qty(cart, id, size) + 1];
      SumByUpdate(cart[id], QtyTerm, size, Qty(cart, id, size) + 1);
      SumByUpdate(cart, CountTerm, id, sizes);
    } else {
      SingletonCount(size, 1);
      SumByUpdate(cart, CountTerm, id, map[size := 1]);
    }
  }

  /** Removing from a removable entry lowers the item count by exactly one. */
  lemma RemoveFromCartCount(cart: Cart, id: string, size: string)
    requires Removable(cart, id, size)
    ensures CartCount(RemoveFromCart(cart, id, size)) == CartCount(cart) - 1
  {
    var sizes := Decrement(cart[id], size);
    if |sizes| == 0 {
      assert SizesCount(sizes) == 0;
      SumByRemove(cart, CountTerm, id);
    } else {
      SumByUpdate(cart, CountTerm, id, sizes);
    }
  }

  /**
   * A positive `updateQuantity` replaces the old units of (id, size) by
   * `quantity`; when the size was new, all of the product's units are replaced.
   */
  lemma UpdateQuantityCount(cart: Cart, id: string, size: string, quantity: int)
    requires quantity > 0
    ensures id in cart && size in cart[id] ==>
      CartCount(UpdateQuantity(cart, id, size, quantity)) == CartCount(cart) - cart[id][size] + quantity
    ensures !(id in cart && size in cart[id]) ==>
      CartCount(UpdateQuantity(cart, id, size, quantity)) == CartCount(cart) - (if id in cart then SizesCount(cart[id]) else 0) + quantity
  {
    if id in cart && size in cart[id] {
      SumByUpdate(cart[id], QtyTerm, size, quantity);
      SumByUpdate(cart, CountTerm, id, cart[id][size := quantity]);
    } else {
      SingletonCount(size, quantity);
      SumByUpdate(cart, CountTerm, id, map[size := quantity]);
    }
  }

  /** In a well-formed cart the item count is zero exactly when the cart is empty. */
  lemma {:induction false} CountZeroIffEmpty(cart: Cart)
    requires WellFormed(cart)
    ensures CartCount(cart) >= 0
    ensures CartCount(cart) == 0 <==> cart == map[]
  {
    forall id | id in cart
      ensures CountTerm(id, cart[id]) >= 1
    {
      var size :| size in cart[id];
      SumByRemove(cart[id], QtyTerm, size);
      SumByNonNegative(cart[id] - {size}, QtyTerm);
    }
    if cart != map[] {
      var id :| id in cart;
      SumByRemove(cart, CountTerm, id);
      SumByNonNegative(cart - {id}, CountTerm);
    }
  }

  /** The unit price the total charges for a cart key: 0 when no product matches. */
  function UnitPrice(catalog: seq<Product>, id: string): int {
    match FindById(catalog, ParseNumber(id))
    case None => 0
    case Some(product) => product.currentPrice
  }

  /** A product's contribution is its current price times its units (0 when unknown). */
  lemma LineTotalIsPriceTimesCount(catalog: seq<Product>, id: string, sizes: Sizes)
    ensures LineTotal(catalog, id, sizes) == UnitPrice(catalog, id) * SizesCount(sizes)
  {
    var found := FindById(catalog, ParseNumber(id));
    if found.Some? {
      SumByScale(sizes, PriceTerm(found.value.currentPrice), QtyTerm, found.value.currentPrice);
    }
  }

  /** A cart key that matches no product contributes nothing to the total. */
  lemma TotalSkipsUnknownProduct(cart: Cart, catalog: seq<Product>, id: string)
    requires id in cart
    requires FindById(catalog, ParseNumber(id)).None?
    ensures CartTotal(cart, catalog) == CartTotal(cart - {id}, catalog)
  {
    SumByRemove(cart, TotalTerm(catalog), id);
  }

  /** Adding a unit raises the total by that product's current price (by 0 when it is unknown). */
  lemma AddToCartTotal(cart: Cart, catalog: seq<Product>, id: string, size: string)
    requires size != ""
    ensures CartTotal(AddToCart(cart, id, size), catalog) == CartTotal(cart, catalog) + UnitPrice(catalog, id)
  {
    var price := UnitPrice(catalog, id);
    var sizes := if id in cart then cart[id][size := Qty(cart, id, size) + 1] else map[size := 1];
    assert AddToCart(cart, id, size) == cart[id := sizes];
    var before := if id in cart then SizesCount(cart[id]) else 0;
    if id in cart {
      SumByUpdate(cart[id], QtyTerm, size, Qty(cart, id, size) + 1);
      LineTotalIsPriceTimesCount(catalog, id, cart[id]);
    } else {
      SingletonCount(size, 1);
    }
    assert SizesCount(sizes) == before + 1;
    LineTotalIsPriceTimesCount(catalog, id, sizes);
    assert price * (before + 1) == price * before + price;
    SumByUpdate(cart, TotalTerm(catalog), id, sizes);
  }

  /** With non-negative prices, a well-formed cart never totals below zero. */
  lemma TotalNonNegative(cart: Cart, catalog: seq<Product>)
    requires WellFormed(cart)
    requires forall i :: 0 <= i < |catalog| ==> catalog[i].currentPrice >= 0
    ensures CartTotal(cart, catalog) >= 0
  {
    forall id | id in cart
      ensures TotalTerm(catalog)(id, cart[id]) >= 0
    {
      LineTotalNonNegative(catalog, id, cart[id]);
    }
    SumByNonNegative(cart, TotalTerm(catalog));
  }

  /** Non-negative quantities at a non-negative price contribute a non-negative amount. */
  lemma LineTotalNonNegative(catalog: seq<Product>, id: string, sizes: Sizes)
    requires forall i :: 0 <= i < |catalog| ==> catalog[i].currentPrice >= 0
    requires forall size :: size in sizes ==> sizes[size] >= 0
    ensures LineTotal(catalog, id, sizes) >= 0
  {
    LineTotalIsPriceTimesCount(catalog, id, sizes);
    SumByNonNegative(sizes, QtyTerm);
    var found := FindById(catalog, ParseNumber(id));
    if found.Some? {
      var i :| 0 <= i < |catalog| && catalog[i] == found.value;
      assert UnitPrice(catalog, id) >= 0;
    }
    NonNegativeProduct(UnitPrice(catalog, id), SizesCount(sizes));
  }

  lemma NonNegativeProduct(a: int, b: int)
    requires a >= 0 && b >= 0
    ensures a * b >= 0
  {
  }

  // ---------------------------------------------------------------------------
  // The queries, as the storefront computes them: nested loops over the keys.

  /** `getCartCount()`: the sum of all stored quantities. */
  method GetCartCount(cart: Cart) returns (total: int)
    ensures total == CartCount(cart)
  {
    total := 0;
    var rest := cart;
    while rest != map[]
      invariant total + CartCount(rest) == CartCount(cart)
      decreases |rest|
    {
      var id :| id in rest;
      SumByRemove(rest, CountTerm, id);
      RemoveSize(rest, id);
      var sizes := rest[id];
      while sizes != map[]
        invariant total + SizesCount(sizes) + CartCount(rest - {id}) == CartCount(cart)
        decreases |sizes|
      {
        var size :| size in sizes;
        SumByRemove(sizes, QtyTerm, size);
        RemoveSize(sizes, size);
        total := total + sizes[size];
        sizes := sizes - {size};
      }
      rest := rest - {id};
    }
  }

  /**
   * `getCartTotal()`: for every cart key whose number matches a catalog id,
   * quantity times that product's current price, summed over its sizes.
   */
  method GetCartTotal(cart: Cart, catalog: seq<Product>) returns (total: int)
    ensures total == CartTotal(cart, catalog)
  {
    total := 0;
    var rest := cart;
    while rest != map[]
      invariant total + CartTotal(rest, catalog) == CartTotal(cart, catalog)
      decreases |rest|
    {
      var id :| id in rest;
      SumByRemove(rest, TotalTerm(catalog), id);
      RemoveSize(rest, id);
      var product := FindById(catalog, ParseNumber(id));
      if product.Some? {
        var price := product.value.currentPrice;
        var sizes := rest[id];
        while sizes != map[]
          invariant total + SumBy(sizes, PriceTerm(price)) + CartTotal(rest - {id}, catalog) == CartTotal(cart, catalog)
          decreases |sizes|
        {
          var size :| size in sizes;
          SumByRemove(sizes, PriceTerm(price), size);
          RemoveSize(sizes, size);
          total := total + sizes[size] * price;
          sizes := sizes - {size};
        }
      }
      rest := rest - {id};
    }
  }

  // ---------------------------------------------------------------------------
  // Inverse pairs and the two `updateQuantity` quirks.

  /** One more unit of `size` (absent reads as 0), the inner step of `addToCart`. */
  function Increment(sizes: Sizes, size: string): Sizes {
    sizes[size := (if size in sizes then sizes[size] else 0) + 1]
  }

  lemma DecrementAfterIncrement(sizes: Sizes, size: string)
    requires size in sizes ==> sizes[size] >= 1
    ensures Decrement(Increment(sizes, size), size) == sizes
  {
  }

  lemma IncrementAfterDecrement(sizes: Sizes, size: string)
    requires size in sizes && sizes[size] != 0
    ensures Increment(Decrement(sizes, size), size) == sizes
  {
  }

  /** On a well-formed cart, removing the unit just added gives back the original cart. */
  lemma AddThenRemove(cart: Cart, id: string, size: string)
    requires WellFormed(cart)
    requires size != ""
    ensures RemoveFromCart(AddToCart(cart, id, size), id, size) == cart
  {
    AddThenRemoveAt(cart, id, size);
  }

  /** `AddThenRemove` needs the invariant only at the product being changed. */
  lemma AddThenRemoveAt(cart: Cart, id: string, size: string)
    requires id in cart ==> cart[id] != map[] && (size in cart[id] ==> cart[id][size] >= 1)
    requires size != ""
    ensures RemoveFromCart(AddToCart(cart, id, size), id, size) == cart
  {
    if id in cart {
      var up := Increment(cart[id], size);
      DecrementAfterIncrement(cart[id], size);
      RemoveAfterSet(cart, id, size, up);
      assert cart[id := up][id := cart[id]] == cart;
    } else {
      RemoveAfterSet(cart, id, size, map[size := 1]);
      assert Decrement(map[size := 1], size) == map[];
      assert cart[id := map[size := 1]] - {id} == cart;
    }
  }

  lemma RemoveAfterSet(cart: Cart, id: string, size: string, sizes: Sizes)
    requires size in sizes && sizes[size] != 0
    ensures RemoveFromCart(cart[id := sizes], id, size) ==
      var down := Decrement(sizes, size);
      if |down| == 0 then cart[id := sizes] - {id} else cart[id := sizes][id := down]
  {
  }

  /** With a size, `addToCart` is one `Increment` of the product's sizes, an absent product reading as `{}`. */
  lemma AddToCartShape(cart: Cart, id: string, size: string)
    requires size != ""
    ensures AddToCart(cart, id, size) == cart[id := Increment(if id in cart then cart[id] else map[], size)]
  {
  }

  /** Putting a product's own entry back over a cart that differs from `cart` only at that product gives `cart`. */
  lemma RestoreEntry(cart: Cart, changed: Cart, id: string)
    requires id in cart
    requires forall other :: other != id ==> (other in changed <==> other in cart)
    requires forall other :: other in changed && other != id ==> changed[other] == cart[other]
    ensures changed[id := cart[id]] == cart
  {
  }

  /** Adding back the unit just removed restores the cart, whatever else the product holds. */
  lemma RemoveThenAdd(cart: Cart, id: string, size: string)
    requires Removable(cart, id, size)
    requires size != ""
    ensures AddToCart(RemoveFromCart(cart, id, size), id, size) == cart
  {
    var down := Decrement(cart[id], size);
    var removed := RemoveFromCart(cart, id, size);
    assert (if id in removed then removed[id] else map[]) == down;
    IncrementAfterDecrement(cart[id], size);
    AddToCartShape(removed, id, size);
    RestoreEntry(cart, removed, id);
  }

  /**
   * `updateQuantity` with a quantity of 0 or less is one `removeFromCart`:
   * it takes a single unit away and so deletes the entry only when exactly
   * one unit was left.
   */
  lemma UpdateNonPositiveIsSingleRemoval(cart: Cart, id: string, size: string, quantity: int)
    requires quantity <= 0
    ensures UpdateQuantity(cart, id, size, quantity) == RemoveFromCart(cart, id, size)
    ensures Removable(cart, id, size) && cart[id][size] > 1 ==>
      Qty(UpdateQuantity(cart, id, size, quantity), id, size) == cart[id][size] - 1 > 0
  {
  }

  /** A positive `updateQuantity` on a size the product does not hold drops the product's other sizes. */
  lemma UpdateNewSizeDropsOtherSizes(cart: Cart, id: string, size: string, other: string, quantity: int)
    requires quantity > 0
    requires id in cart && size !in cart[id] && other in cart[id]
    ensures other != size
    ensures Qty(UpdateQuantity(cart, id, size, quantity), id, other) == 0
  {
  }

  /** Two adds of the same entry to an empty cart store a quantity of 2. */
  lemma ScenarioAddTwice()
    ensures AddToCart(AddToCart(map[], "p1", "M"), "p1", "M") == map["p1" := map["M" := 2]]
  {
    assert AddToCart(map[], "p1", "M") == map["p1" := map["M" := 1]];
    assert Increment(map["M" := 1], "M") == map["M" := 2];
  }

  /** From two units, one removal leaves one unit and a second leaves the empty cart. */
  lemma ScenarioRemoveTwice()
    ensures RemoveFromCart(map["p1" := map["M" := 2]], "p1", "M") == map["p1" := map["M" := 1]]
    ensures RemoveFromCart(map["p1" := map["M" := 1]], "p1", "M") == map[]
  {
    assert Decrement(map["M" := 2], "M") == map["M" := 1];
    assert Decrement(map["M" := 1], "M") == map[];
    assert map["p1" := map["M" := 1]] - {"p1"} == map[];
  }
}
