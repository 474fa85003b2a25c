/** The store process: the catalog, the carts keyed by user id and the order
    ledger, with one method per request handler. Every handler runs to
    completion before the next begins, so each method is one state change. */
module Storefront {
  import opened Seqs
  import opened Catalog
  import opened Carts
  import opened Ledger
  import opened Checkout

  /** Why a handler refused a request. */
  datatype Error =
    | ProductNotFound
    | CartNotFound
    | ItemNotFound
    | InsufficientStock
    | EmptyCart
    | AdminRequired

  datatype Result<T> = Ok(value: T) | Err(error: Error)

  /** The body of the product listing response. */
  datatype Listing = Listing(products: seq<Product>, total: nat, page: int, totalPages: nat)

  /** Product `i` of the catalog the process starts with (prices in cents). */
  function SeedProduct(i: int): (p: Product)
    requires 1 <= i <= 4
    ensures p.id == i
  {
    Product(i, SeedName(i), SeedPrice(i), SeedCategory(i), SeedDescription(i), SeedImage(i), SeedStock(i))
  }

  function SeedName(i: int): string
  {
    if i == 1 then "Wireless Headphones"
    else if i == 2 then "Smart Watch"
    else if i == 3 then "Laptop Stand"
    else "Bluetooth Speaker"
  }

  function SeedPrice(i: int): int
  {
    if i == 1 then 9999 else if i == 2 then 19999 else if i == 3 then 4999 else 7999
  }

  function SeedCategory(i: int): string
  {
    if i == 3 then "Accessories" else "Electronics"
  }

  function SeedDescription(i: int): string
  {
    if i == 1 then "High-quality wireless headphones with noise cancellation"
    else if i == 2 then "Feature-rich smartwatch with health tracking"
    else if i == 3 then "Ergonomic laptop stand for better posture"
    else "Portable Bluetooth speaker with excellent sound quality"
  }

  function SeedImage(i: int): string
  {
    if i == 1 then "https://images.pexels.com/photos/3394650/pexels-photo-3394650.jpeg?auto=compress&cs=tinysrgb&w=500"
    else if i == 2 then "https://images.pexels.com/photos/393047/pexels-photo-393047.jpeg?auto=compress&cs=tinysrgb&w=500"
    else if i == 3 then "https://images.pexels.com/photos/7974/pexels-photo.jpg?auto=compress&cs=tinysrgb&w=500"
    else "https://images.pexels.com/photos/1649771/pexels-photo-1649771.jpeg?auto=compress&cs=tinysrgb&w=500"
  }

  function SeedStock(i: int): int
  {
    if i == 1 then 50 else if i == 2 then 30 else if i == 3 then 25 else 40
  }

  /** The catalog the process starts with: products 1 to 4, in id order. */
  function SeedCatalog(): (ps: seq<Product>)
    ensures |ps| == 4
    ensures forall i :: 0 <= i < |ps| ==> ps[i].id == i + 1
  {
    seq(4, i requires 0 <= i < 4 => SeedProduct(i + 1))
  }

  /** The starting catalog has unique ids, all below 5, the first id handed out. */
  lemma SeedCatalogIds()
    ensures UniqueIds(SeedCatalog())
    ensures forall i :: 0 <= i < |SeedCatalog()| ==> SeedCatalog()[i].id < 5
  {
  }

  /** Product ids are unique and below the next id to hand out; every cart
      has at most one line per product; every order is well formed, and
      order ids increase along the ledger and stay below the next one. */
  ghost predicate StoreInvariant(products: seq<Product>, carts: map<int, seq<CartLine>>,
                                 orders: seq<Order>, nextProductId: int, nextOrderId: int)
  {
    && UniqueIds(products)
    && (forall i :: 0 <= i < |products| ==> products[i].id < nextProductId)
    && (forall u :: u in carts ==> WellFormedCart(carts[u]))
    && (forall i :: 0 <= i < |orders| ==> WellFormedOrder(orders[i]) && orders[i].id < nextOrderId)
    && (forall i, j :: 0 <= i < j < |orders| ==> orders[i].id < orders[j].id)
  }

  /** Placing an order from a non-empty cart keeps the invariant: the stock
      update leaves ids alone, the emptied cart is trivially well formed, and
      the new order is well formed with the largest id so far. */
  lemma PlacingKeepsInvariant(products: seq<Product>, carts: map<int, seq<CartLine>>,
                              orders: seq<Order>, nextProductId: int, nextOrderId: int,
                              userId: int, createdAt: string)
    requires StoreInvariant(products, carts, orders, nextProductId, nextOrderId)
    requires |CartOf(carts, userId)| > 0
    ensures var cart := CartOf(carts, userId);
            StoreInvariant(DecrementAll(products, cart), carts[userId := []],
                           orders + [NewOrder(nextOrderId, userId, cart, createdAt)],
                           nextProductId, nextOrderId + 1)
  {
    var cart := CartOf(carts, userId);
    DecrementAllEach(products, cart);
    var o := NewOrder(nextOrderId, userId, cart, createdAt);
    var orders' := orders + [o];
    assert WellFormedOrder(o);
    forall i, j | 0 <= i < j < |orders'| ensures orders'[i].id < orders'[j].id {
      if j < |orders| {
        assert orders'[i] == orders[i] && orders'[j] == orders[j];
      } else {
        assert orders'[i] == orders[i] && orders'[j] == o;
      }
    }
  }

  class Store {
    var products: seq<Product>
    var carts: map<int, seq<CartLine>>
    var orders: seq<Order>
    var nextProductId: int
    var nextOrderId: int

    /** The store's invariant, stated on its fields. */
    ghost predicate Valid()
      reads this
    {
      StoreInvariant(products, carts, orders, nextProductId, nextOrderId)
    }

    constructor ()
      ensures Valid()
      ensures products == SeedCatalog() && carts == map[] && orders == []
      ensures nextProductId == 5 && nextOrderId == 1
    {
      SeedCatalogIds();
      products := SeedCatalog();
      carts := map[];
      orders := [];
      nextProductId := 5;
      nextOrderId := 1;
    }

    // -------------------------------------------------------------------
    // Catalog.

    /** `GET /api/products`: filter, then cut out one page with `slice`. */
    method ListProducts(page: int, limit: int, search: string, category: string) returns (r: Listing)
      requires limit >= 1
      ensures r.products == Slice(Filtered(products, search, category), (page - 1) * limit, (page - 1) * limit + limit)
      ensures page >= 1 ==> r.products == Page(Filtered(products, search, category), page, limit)
      ensures r.total == |Filtered(products, search, category)|
      ensures r.page == page && r.totalPages == TotalPages(r.total, limit)
      ensures forall i :: 0 <= i < |r.products| ==>
                r.products[i] in products && Passes(r.products[i], search, category)
    {
      FilteredSpec(products, search, category);
      var filtered := Filtered(products, search, category);
      var startIndex := (page - 1) * limit;
      var endIndex := startIndex + limit;
      if page >= 1 {
        SliceIsPage(filtered, page, limit);
      }
      r := Listing(Slice(filtered, startIndex, endIndex), |filtered|, page, TotalPages(|filtered|, limit));
    }

    /** `GET /api/products/:id`. */
    method GetProduct(id: int) returns (r: Result<Product>)
      ensures r.Ok? <==> exists i :: 0 <= i < |products| && products[i].id == id
      ensures r.Err? ==> r.error == ProductNotFound
      ensures r.Ok? ==> r.value in products && r.value.id == id
      ensures r.Ok? ==> r.value == products[ProductIndex(products, id)]
    {
      var k := ProductIndex(products, id);
      if k == -1 {
        r := Err(ProductNotFound);
      } else {
        r := Ok(products[k]);
      }
    }

    /** `POST /api/products` (administrators only): append a product under
        the next id and advance the counter. */
    method CreateProduct(isAdmin: bool, d: ProductDraft) returns (r: Result<Product>)
      requires Valid()
      modifies this
      ensures Valid()
      ensures !isAdmin ==> r == Err(AdminRequired) && unchanged(this)
      ensures isAdmin ==>
        && r == Ok(FromDraft(old(nextProductId), d))
        && products == old(products) + [r.value]
        && nextProductId == old(nextProductId) + 1
        && carts == old(carts) && orders == old(orders) && nextOrderId == old(nextOrderId)
      ensures isAdmin ==> forall i :: 0 <= i < |old(products)| ==> old(products)[i].id != r.value.id
    {
      if !isAdmin {
        return Err(AdminRequired);
      }
      var p := FromDraft(nextProductId, d);
      nextProductId := nextProductId + 1;
      products := products + [p];
      r := Ok(p);
    }

    /** `PUT /api/products/:id` (administrators only): replace every field
        but the id, at the same position. */
    method UpdateProduct(isAdmin: bool, id: int, d: ProductDraft) returns (r: Result<Product>)
      requires Valid()
      modifies this
      ensures Valid()
      ensures !isAdmin ==> r == Err(AdminRequired) && unchanged(this)
      ensures isAdmin && ProductIndex(old(products), id) == -1 ==>
                r == Err(ProductNotFound) && unchanged(this)
      ensures isAdmin && ProductIndex(old(products), id) >= 0 ==>
        var k := ProductIndex(old(products), id);
        && r == Ok(FromDraft(id, d))
        && products == old(products)[k := r.value]
        && nextProductId == old(nextProductId)
        && carts == old(carts) && orders == old(orders) && nextOrderId == old(nextOrderId)
    {
      if !isAdmin {
        return Err(AdminRequired);
      }
      var k := ProductIndex(products, id);
      if k == -1 {
        return Err(ProductNotFound);
      }
      var p := FromDraft(products[k].id, d);
      products := products[k := p];
      r := Ok(p);
    }

    /** `DELETE /api/products/:id` (administrators only): cut the product
        out; carts and orders keep their own copies. */
    method DeleteProduct(isAdmin: bool, id: int) returns (r: Result<()>)
      requires Valid()
      modifies this
      ensures Valid()
      ensures !isAdmin ==> r == Err(AdminRequired) && unchanged(this)
      ensures isAdmin && ProductIndex(old(products), id) == -1 ==>
                r == Err(ProductNotFound) && unchanged(this)
      ensures isAdmin && ProductIndex(old(products), id) >= 0 ==>
        var k := ProductIndex(old(products), id);
        && r == Ok(())
        && products == old(products)[..k] + old(products)[k + 1..]
        && ProductIndex(products, id) == -1
        && nextProductId == old(nextProductId)
        && carts == old(carts) && orders == old(orders) && nextOrderId == old(nextOrderId)
    {
      if !isAdmin {
        return Err(AdminRequired);
      }
      var k := ProductIndex(products, id);
      if k == -1 {
        return Err(ProductNotFound);
      }
      ghost var before := products;
      products := products[..k] + products[k + 1..];
      forall i | 0 <= i < |products| ensures products[i].id != id {
        if i < k {
          assert products[i] == before[i];
        } else {
          assert products[i] == before[i + 1];
        }
      }
      r := Ok(());
    }

    // -------------------------------------------------------------------
    // Carts.

    /** `GET /api/cart`: the user's lines, or none. */
    method GetCart(userId: int) returns (lines: seq<CartLine>)
      ensures userId in carts ==> lines == carts[userId]
      ensures userId !in carts ==> lines == []
    {
      lines := CartOf(carts, userId);
    }

    /** `POST /api/cart`: the product must exist and the requested quantity
        must not exceed its current stock; then the quantity is summed into
        the user's line for that product, or a new line is appended. */
    method AddItem(userId: int, productId: int, quantity: int) returns (r: Result<seq<CartLine>>)
      requires Valid()
      modifies this
      ensures Valid()
      ensures ProductIndex(old(products), productId) == -1 ==>
                r == Err(ProductNotFound) && unchanged(this)
      ensures var k := ProductIndex(old(products), productId);
              k >= 0 && quantity > old(products)[k].stock ==>
                r == Err(InsufficientStock) && unchanged(this)
      ensures var k := ProductIndex(old(products), productId);
              k >= 0 && quantity <= old(products)[k].stock ==>
                && carts == old(carts)[userId := AddLine(CartOf(old(carts), userId), old(products)[k], quantity)]
                && r == Ok(carts[userId])
                && products == old(products) && orders == old(orders)
                && nextProductId == old(nextProductId) && nextOrderId == old(nextOrderId)
    {
      var k := ProductIndex(products, productId);
      if k == -1 {
        return Err(ProductNotFound);
      }
      var product := products[k];
      if quantity > product.stock {
        return Err(InsufficientStock);
      }
      var lines := CartOf(carts, userId);
      assert product.id == productId;
      carts := carts[userId := AddLine(lines, product, quantity)];
      r := Ok(carts[userId]);
    }

    /** `PUT /api/cart/:productId`: the user must have a cart holding a line
        for the product; a quantity of 0 or less removes the line, any other
        quantity replaces it, without a stock check. */
    method SetQuantity(userId: int, productId: int, quantity: int) returns (r: Result<seq<CartLine>>)
      requires Valid()
      modifies this
      ensures Valid()
      ensures userId !in old(carts) ==> r == Err(CartNotFound) && unchanged(this)
      ensures userId in old(carts) && LineIndex(old(carts)[userId], productId) == -1 ==>
                r == Err(ItemNotFound) && unchanged(this)
      ensures userId in old(carts) && LineIndex(old(carts)[userId], productId) >= 0 ==>
                && carts == old(carts)[userId := SetLineQuantity(old(carts)[userId], productId, quantity)]
                && r == Ok(carts[userId])
                && products == old(products) && orders == old(orders)
                && nextProductId == old(nextProductId) && nextOrderId == old(nextOrderId)
    {
      if userId !in carts {
        return Err(CartNotFound);
      }
      var lines := carts[userId];
      if LineIndex(lines, productId) == -1 {
        return Err(ItemNotFound);
      }
      SetLineQuantitySpec(lines, productId, quantity);
      carts := carts[userId := SetLineQuantity(lines, productId, quantity)];
      r := Ok(carts[userId]);
    }

    /** `DELETE /api/cart/:productId`: the user must have a cart; the line
        for the product is filtered out (no line is not an error). */
    method RemoveItem(userId: int, productId: int) returns (r: Result<seq<CartLine>>)
      requires Valid()
      modifies this
      ensures Valid()
      ensures userId !in old(carts) ==> r == Err(CartNotFound) && unchanged(this)
      ensures userId in old(carts) ==>
                && carts == old(carts)[userId := RemoveLine(old(carts)[userId], productId)]
                && r == Ok(carts[userId])
                && products == old(products) && orders == old(orders)
                && nextProductId == old(nextProductId) && nextOrderId == old(nextOrderId)
    {
      if userId !in carts {
        return Err(CartNotFound);
      }
      RemoveLineWellFormed(carts[userId], productId);
      carts := carts[userId := RemoveLine(carts[userId], productId)];
      r := Ok(carts[userId]);
    }

    // -------------------------------------------------------------------
    // Orders.

    /** `POST /api/orders`: refuse an empty cart; otherwise append a pending
        order built from the cart under the next order id, empty the cart,
        and take each line's quantity off the stock of its product if the
        catalog still has it. `createdAt` is the caller's clock reading. */
    method PlaceOrder(userId: int, createdAt: string) returns (r: Result<Order>)
      requires Valid()
      modifies this
      ensures Valid()
      ensures |CartOf(old(carts), userId)| == 0 ==> r == Err(EmptyCart) && unchanged(this)
      ensures var cart := CartOf(old(carts), userId);
              |cart| > 0 ==>
                && r == Ok(NewOrder(old(nextOrderId), userId, cart, createdAt))
                && orders == old(orders) + [r.value]
                && nextOrderId == old(nextOrderId) + 1
                && carts == old(carts)[userId := []]
                && products == DecrementAll(old(products), cart)
                && nextProductId == old(nextProductId)
    {
      var cart := CartOf(carts, userId);
      if |cart| == 0 {
        return Err(EmptyCart);
      }
      PlacingKeepsInvariant(products, carts, orders, nextProductId, nextOrderId, userId, createdAt);
      var order := NewOrder(nextOrderId, userId, cart, createdAt);
      var stocked := TakeStock(products, cart);
      products, carts, orders, nextOrderId := stocked, carts[userId := []], orders + [order], nextOrderId + 1;
      r := Ok(order);
    }

    /** The stock loop of `POST /api/orders`: for each line in cart order,
        the product with the line's id, if any, loses the line's quantity. */
    static method TakeStock(ps: seq<Product>, cart: seq<CartLine>) returns (r: seq<Product>)
      ensures r == DecrementAll(ps, cart)
    {
      r := ps;
      var i := 0;
      while i < |cart|
        invariant 0 <= i <= |cart|
        invariant DecrementAll(r, cart[i..]) == DecrementAll(ps, cart)
      {
        DecrementAllStep(r, cart, i);
        r := TakeLine(r, cart[i]);
        i := i + 1;
      }
    }

    /** One turn of the stock loop: find the line's product and lower its stock. */
    static method TakeLine(ps: seq<Product>, line: CartLine) returns (r: seq<Product>)
      ensures r == DecrementOne(ps, line)
    {
      r := ps;
      var k := ProductIndex(ps, line.productId);
      if k >= 0 {
        r := r[k := r[k].(stock := r[k].stock - line.quantity)];
      }
    }

    /** `GET /api/orders`: the caller's orders, in ledger order. */
    method ListOrders(userId: int) returns (r: seq<Order>)
      ensures r == OrdersOf(orders, userId)
      ensures IsSubsequence(r, orders)
      ensures forall i :: 0 <= i < |orders| ==> (orders[i] in r <==> orders[i].userId == userId)
    {
      OrdersOfInLedgerOrder(orders, userId);
      r := OrdersOf(orders, userId);
    }

    /** `GET /api/orders/all` (administrators only): the whole ledger. */
    method ListAllOrders(isAdmin: bool) returns (r: Result<seq<Order>>)
      ensures isAdmin ==> r == Ok(orders)
      ensures !isAdmin ==> r == Err(AdminRequired)
    {
      if !isAdmin {
        return Err(AdminRequired);
      }
      r := Ok(orders);
    }
  }
}
