/**
 * The orders page's local delete: the order list without the chosen order,
 * nothing sent to the backend.
 */
module Orders {
  import opened Seqs

  datatype OrderItem = OrderItem(name: string, size: string, quantity: int, price: int)
  datatype Order = Order(id: int, items: seq<OrderItem>)

  function IdDiffers(orderId: int): Order -> bool {
    (order: Order) => order.id != orderId
  }

  /** `deleteOrder(orderId)`: `orders.filter((order) => order.id !== orderId)`. */
  function DeleteOrder(orders: seq<Order>, orderId: int): (r: seq<Order>)
    ensures forall i :: 0 <= i < |r| ==> r[i].id != orderId && r[i] in orders
    ensures forall i :: 0 <= i < |orders| && orders[i].id != orderId ==> orders[i] in r
    ensures |r| <= |orders|
    ensures (exists i :: 0 <= i < |orders| && orders[i].id == orderId) ==> |r| < |orders|
  {
    if exists i :: 0 <= i < |orders| && orders[i].id == orderId then
      var i :| 0 <= i < |orders| && orders[i].id == orderId;
      FilterShrinks(orders, IdDiffers(orderId), i);
      Filter(orders, IdDiffers(orderId))
    else Filter(orders, IdDiffers(orderId))
  }

  /** Deleting distributes over concatenation: the kept orders keep their relative order. */
  lemma DeleteKeepsOrder(a: seq<Order>, b: seq<Order>, orderId: int)
    ensures DeleteOrder(a + b, orderId) == DeleteOrder(a, orderId) + DeleteOrder(b, orderId)
  {
    FilterAppend(a, b, IdDiffers(orderId));
  }

  /** Deleting the same id twice is deleting it once. */
  lemma DeleteIdempotent(orders: seq<Order>, orderId: int)
    ensures DeleteOrder(DeleteOrder(orders, orderId), orderId) == DeleteOrder(orders, orderId)
  {
    FilterIdempotent(orders, IdDiffers(orderId));
  }

  /** Deleting an id no order has leaves the list as it is. */
  lemma DeleteAbsentId(orders: seq<Order>, orderId: int)
    requires forall i :: 0 <= i < |orders| ==> orders[i].id != orderId
    ensures DeleteOrder(orders, orderId) == orders
  {
    FilterKeepsAll(orders, IdDiffers(orderId));
  }
}
