/** The append-only order ledger: orders, their items and totals, and the
    per-user view of the ledger. */
module Ledger {
  import opened Seqs

  /** The only status an order is given. */
  datatype Status = Pending

  /** One order line, copied by value from a cart line: prices in cents. */
  datatype OrderItem = OrderItem(productId: int, productName: string, price: int, quantity: int)

  /** A placed order. `createdAt` is the timestamp supplied by the caller;
      `total` is in cents. */
  datatype Order = Order(
    id: int,
    userId: int,
    items: seq<OrderItem>,
    total: int,
    status: Status,
    createdAt: string)

  /** Σ price × quantity over the items. */
  function ItemsTotal(items: seq<OrderItem>): (total: int)
    ensures (forall i :: 0 <= i < |items| ==> items[i].price >= 0 && items[i].quantity >= 0) ==> total >= 0
    ensures |items| == 0 ==> total == 0
  {
    if |items| == 0 then 0 else items[0].price * items[0].quantity + ItemsTotal(items[1..])
  }

  /** What every order in the ledger satisfies: it has items, its total is
      the sum over its items, and it is pending. */
  predicate WellFormedOrder(o: Order)
  {
    |o.items| > 0 && o.total == ItemsTotal(o.items) && o.status == Pending
  }

  /** `orders.filter(order => order.userId === userId)`. */
  function OrdersOf(orders: seq<Order>, userId: int): (r: seq<Order>)
    ensures forall i :: 0 <= i < |r| ==> r[i].userId == userId && r[i] in orders
    ensures forall i :: 0 <= i < |orders| && orders[i].userId == userId ==> orders[i] in r
  {
    Filter((o: Order) => o.userId == userId, orders)
  }

  /** A user's orders come in ledger order. */
  lemma OrdersOfInLedgerOrder(orders: seq<Order>, userId: int)
    ensures IsSubsequence(OrdersOf(orders, userId), orders)
  {
    FilterIsSubsequence((o: Order) => o.userId == userId, orders);
  }

  /** Appending an order to the ledger adds it at the end of its owner's
      list and leaves every other user's list as it was. */
  lemma OrdersOfAppend(orders: seq<Order>, o: Order, userId: int)
    ensures OrdersOf(orders + [o], userId) ==
            OrdersOf(orders, userId) + (if o.userId == userId then [o] else [])
  {
    var f := (x: Order) => x.userId == userId;
    FilterAppend(f, orders, [o]);
    assert Filter(f, [o]) == if o.userId == userId then [o] else [];
  }

  /** `OrdersOfAppend` for every user at once. */
  lemma OrdersOfAppendEach(orders: seq<Order>, o: Order)
    ensures forall u :: OrdersOf(orders + [o], u) == OrdersOf(orders, u) + (if o.userId == u then [o] else [])
  {
    forall u ensures OrdersOf(orders + [o], u) == OrdersOf(orders, u) + (if o.userId == u then [o] else []) {
      OrdersOfAppend(orders, o, u);
    }
  }
}
