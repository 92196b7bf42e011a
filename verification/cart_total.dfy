/**
 * The cart totals panel: subtotal from `getCartTotal()`, a shipping fee that
 * is waived on a zero subtotal, and the grand total. Amounts are in cents.
 */
module CartTotals {
  import opened Catalog
  import opened ShopCart

  /** `delivery_fee = 10`, in cents. */
  const DeliveryFee: int := 1000

  datatype Totals = Totals(subtotal: int, shipping: int, total: int)

  /** The shipping line: nothing on a zero subtotal, the delivery fee otherwise. */
  function ShippingFee(subtotal: int): (fee: int)
    ensures fee == 0 || fee == DeliveryFee
    ensures fee == 0 <==> subtotal == 0
  {
    if subtotal == 0 then 0 else DeliveryFee
  }

  /** The total line: `cartAmount === 0 ? 0 : cartAmount + delivery_fee`. */
  function GrandTotal(subtotal: int): (total: int)
    ensures total == subtotal + ShippingFee(subtotal)
    ensures total >= subtotal
    ensures subtotal >= 0 ==> (total == 0 <==> subtotal == 0)
  {
    if subtotal == 0 then 0 else subtotal + DeliveryFee
  }

  /** The three figures the panel shows for `cart`. */
  method ComputeTotals(cart: Cart, catalog: seq<Product>) returns (t: Totals)
    ensures t.subtotal == ShopCart.CartTotal(cart, catalog)
    ensures t.total == t.subtotal + t.shipping
    ensures t.subtotal == 0 ==> t.shipping == 0 && t.total == 0
    ensures t.subtotal != 0 ==> t.shipping == DeliveryFee
    ensures cart == map[] ==> t == Totals(0, 0, 0)
  {
    var subtotal := GetCartTotal(cart, catalog);
    t := Totals(subtotal, ShippingFee(subtotal), GrandTotal(subtotal));
  }

  /** With non-negative prices the panel never shows a negative amount, and the total covers the subtotal. */
  lemma TotalsNonNegative(cart: Cart, catalog: seq<Product>)
    requires WellFormed(cart)
    requires forall i :: 0 <= i < |catalog| ==> catalog[i].currentPrice >= 0
    ensures 0 <= ShopCart.CartTotal(cart, catalog) <= GrandTotal(ShopCart.CartTotal(cart, catalog))
  {
    TotalNonNegative(cart, catalog);
  }
}
