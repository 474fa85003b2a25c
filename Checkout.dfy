/** Turning a cart into an order: the total, the copied items, and the stock
    decrement that follows. */
module Checkout {
  import opened Catalog
  import opened Carts
  import opened Ledger

  /** One cart line's share of the total, at the price copied into the line. */
  function LineSubtotal(line: CartLine): int
  {
    line.product.price * line.quantity
  }

  /** `userCart.reduce((sum, item) => sum + item.product.price * item.quantity, 0)`:
      folded from the left, in cents. */
  function CartTotal(lines: seq<CartLine>): (total: int)
    ensures (forall i :: 0 <= i < |lines| ==> lines[i].product.price >= 0 && lines[i].quantity >= 0) ==>
            total >= 0
  {
    if |lines| == 0 then 0
    else
      var last := lines[|lines| - 1];
      assert last.product.price * last.quantity >= 0 || last.product.price < 0 || last.quantity < 0;
      CartTotal(lines[..|lines| - 1]) + LineSubtotal(last)
  }

  /** The order item copied from a cart line: the line's product id, and the
      name and price of the line's copy of the product. */
  function ItemOf(line: CartLine): (item: OrderItem)
    ensures item.productId == line.productId && item.quantity == line.quantity
    ensures item.price * item.quantity == LineSubtotal(line)
  {
    OrderItem(line.productId, line.product.name, line.product.price, line.quantity)
  }

  /** `userCart.map(item => ...)`: one item per line, in cart order. */
  function OrderItems(lines: seq<CartLine>): (items: seq<OrderItem>)
    ensures |items| == |lines|
    ensures forall i :: 0 <= i < |lines| ==>
              && items[i].productId == lines[i].productId
              && items[i].quantity == lines[i].quantity
              && items[i].price * items[i].quantity == LineSubtotal(lines[i])
  {
    seq(|lines|, i requires 0 <= i < |lines| => ItemOf(lines[i]))
  }

  /** Totals split over concatenation. */
  lemma {:induction false} CartTotalAppend(a: seq<CartLine>, b: seq<CartLine>)
    ensures CartTotal(a + b) == CartTotal(a) + CartTotal(b)
    decreases |b|
  {
    if |b| > 0 {
      var ab := a + b;
      assert ab[..|ab| - 1] == a + b[..|b| - 1];
      assert ab[|ab| - 1] == b[|b| - 1];
      CartTotalAppend(a, b[..|b| - 1]);
    } else {
      assert a + b == a;
    }
  }

  /** The order's total (a left fold over the cart) equals the sum over the
      order's items, so the stored total agrees with the stored items. */
  lemma {:induction false} CartTotalMatchesItems(lines: seq<CartLine>)
    ensures ItemsTotal(OrderItems(lines)) == CartTotal(lines)
  {
    if |lines| > 0 {
      CartTotalMatchesItems(lines[1..]);
      assert OrderItems(lines)[1..] == OrderItems(lines[1..]);
      assert lines == [lines[0]] + lines[1..];
      CartTotalAppend([lines[0]], lines[1..]);
      assert [lines[0]][..0] == [];
    }
  }

  /** The order `placeOrder` builds from a non-empty cart: pending, one item per
      line in cart order carrying that line's product id, copied name, copied
      price and quantity, and a total that is the sum over those items. */
  function NewOrder(id: int, userId: int, lines: seq<CartLine>, createdAt: string): (o: Order)
    ensures o.id == id && o.userId == userId && o.createdAt == createdAt
    ensures |lines| > 0 ==> WellFormedOrder(o)
    ensures |o.items| == |lines|
    ensures forall i :: 0 <= i < |lines| ==>
              o.items[i].productId == lines[i].productId &&
              o.items[i].productName == lines[i].product.name &&
              o.items[i].price == lines[i].product.price &&
              o.items[i].quantity == lines[i].quantity
  {
    CartTotalMatchesItems(lines);
    Order(id, userId, OrderItems(lines), CartTotal(lines), Pending, createdAt)
  }

  // ---------------------------------------------------------------------
  // Stock.

  /** All fields but the stock agree. */
  predicate SameButStock(p: Product, q: Product)
  {
    p == q.(stock := p.stock)
  }

  /** One step of the stock loop: the first product with the line's id, if
      the catalog still has one, loses the line's quantity; no lower bound. */
  function DecrementOne(ps: seq<Product>, line: CartLine): (r: seq<Product>)
    ensures |r| == |ps|
    ensures forall j :: 0 <= j < |ps| ==> SameButStock(r[j], ps[j])
  {
    var k := ProductIndex(ps, line.productId);
    if k == -1 then ps else ps[k := ps[k].(stock := ps[k].stock - line.quantity)]
  }

  /** The whole stock loop, one line after the other in cart order. */
  function DecrementAll(ps: seq<Product>, lines: seq<CartLine>): (r: seq<Product>)
    ensures |r| == |ps|
    ensures forall j :: 0 <= j < |ps| ==> SameButStock(r[j], ps[j])
    decreases |lines|
  {
    if |lines| == 0 then ps else DecrementAll(DecrementOne(ps, lines[0]), lines[1..])
  }

  /** One turn of the stock loop, taken from position `i` of the cart. */
  lemma DecrementAllStep(ps: seq<Product>, lines: seq<CartLine>, i: int)
    requires 0 <= i < |lines|
    ensures DecrementAll(ps, lines[i..]) == DecrementAll(DecrementOne(ps, lines[i]), lines[i + 1..])
  {
    assert lines[i..][0] == lines[i] && lines[i..][1..] == lines[i + 1..];
  }

  /** With unique product ids, after the stock loop each catalog product has
      lost exactly the total quantity the cart held of it (nothing if none),
      and is otherwise unchanged. Lines whose product has been deleted touch
      nothing. */
  lemma {:induction false} DecrementAllAt(ps: seq<Product>, lines: seq<CartLine>, j: int)
    requires UniqueIds(ps) && 0 <= j < |ps|
    ensures DecrementAll(ps, lines)[j] == ps[j].(stock := ps[j].stock - QuantityOf(lines, ps[j].id))
    decreases |lines|
  {
    if |lines| > 0 {
      var next := DecrementOne(ps, lines[0]);
      assert UniqueIds(next) by {
        forall a, b | 0 <= a < b < |next| ensures next[a].id != next[b].id {
          assert SameButStock(next[a], ps[a]) && SameButStock(next[b], ps[b]);
        }
      }
      DecrementAllAt(next, lines[1..], j);
      ProductIndexOfUnique(ps, j);
    }
  }

  /** `DecrementAllAt` for every position at once; ids stay unique. */
  lemma DecrementAllEach(ps: seq<Product>, lines: seq<CartLine>)
    requires UniqueIds(ps)
    ensures UniqueIds(DecrementAll(ps, lines))
    ensures forall j :: 0 <= j < |ps| ==>
              DecrementAll(ps, lines)[j] == ps[j].(stock := ps[j].stock - QuantityOf(lines, ps[j].id))
  {
    var r := DecrementAll(ps, lines);
    forall j | 0 <= j < |ps|
      ensures r[j] == ps[j].(stock := ps[j].stock - QuantityOf(lines, ps[j].id))
    {
      DecrementAllAt(ps, lines, j);
    }
    forall a, b | 0 <= a < b < |r| ensures r[a].id != r[b].id {
      assert SameButStock(r[a], ps[a]) && SameButStock(r[b], ps[b]);
    }
  }

  /** Each product's stock after checkout, stated for a well-formed cart: the
      product loses the quantity of its own line, if the cart has one. */
  lemma DecrementForCart(ps: seq<Product>, lines: seq<CartLine>, j: int)
    requires UniqueIds(ps) && WellFormedCart(lines) && 0 <= j < |ps|
    ensures var k := LineIndex(lines, ps[j].id);
            DecrementAll(ps, lines)[j] ==
            ps[j].(stock := ps[j].stock - (if k >= 0 then lines[k].quantity else 0))
  {
    DecrementAllAt(ps, lines, j);
    QuantityOfSingle(lines, ps[j].id);
  }

  /** The add-to-cart check compares only the requested quantity with the
      stock, never what the cart already holds: starting from any cart
      without a line for the product, two adds of the whole stock both pass,
      and checking out that cart takes the product's stock to minus its
      former value. */
  lemma OversellByRepeatedAdd(ps: seq<Product>, lines: seq<CartLine>, j: int)
    requires UniqueIds(ps) && 0 <= j < |ps| && ps[j].stock > 0
    requires WellFormedCart(lines) && LineIndex(lines, ps[j].id) == -1
    ensures var p := ps[j];
            var cart := AddLine(AddLine(lines, p, p.stock), p, p.stock);
            && WellFormedCart(cart)
            && QuantityOf(cart, p.id) == 2 * p.stock
            && DecrementAll(ps, cart)[j].stock == -p.stock < 0
  {
    var p := ps[j];
    var once := AddLine(lines, p, p.stock);
    var cart := AddLine(once, p, p.stock);
    QuantityOfSingle(lines, p.id);
    AddLineSpec(lines, p, p.stock, p.id);
    AddLineSpec(once, p, p.stock, p.id);
    DecrementAllAt(ps, cart, j);
  }
}
