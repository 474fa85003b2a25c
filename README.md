# Storefront store model

A Dafny model of the in-memory store behind the storefront's Express server
(`server/server.js`). The model covers:

- the product catalog with its search, category filter and pagination;
- one cart per user;
- the append-only order ledger;
- the two id counters, which the request handlers update one request at a time.

The model is split into these modules:

- `Seqs`: order-preserving filtering (`Array.prototype.filter`), the first-match search `Array.prototype.findIndex`, and the subsequence relation.
- `Catalog`: the product record, lookup by id, ASCII lower-casing and `includes`, the listing filters, `slice` and 1-indexed pagination with `Math.ceil(total / limit)` pages.
- `Carts`: cart lines holding a snapshot of their product, and the three cart edits (add or sum, set quantity or splice, filter out).
- `Ledger`: orders, their items, the sum over items and the per-user view of the ledger.
- `Checkout`: the order built from a cart (total by a left fold, items copied in cart order) and the stock loop that follows.
- `Storefront`: class `Store`.
  - Its fields are `products`, `carts`, `orders`, `nextProductId` and `nextOrderId`, and each request handler is one method.
  - The store invariant says:
    - product ids are unique and below the next id;
    - carts have one line per product;
    - every order is pending, has items, and has a total equal to the sum over its items;
    - order ids increase along the ledger.
  - Every state-changing method keeps that invariant.

Prices and totals are integer cents. The caller's user id, admin flag and
clock reading are method parameters.

## Model

| member | source | states |
|---|---|---|
| Seqs.Filter | server/server.js:331 | The result holds only elements of the input that pass the test, holds every input element that passes, and is no longer than the input. |
| Seqs.FindIndex | server/server.js:232 | `findIndex` gives -1 exactly when no element passes the test; otherwise it gives the first passing position. |
| Seqs.FilterIsSubsequence | server/server.js:331 | Filtering keeps the surviving elements in their original order. |
| Seqs.FilterAppend | server/server.js:378 | Filtering distributes over concatenation, so appending to a filtered list appends to its filter. |
| Seqs.FilterIdempotent | server/server.js:331 | Filtering twice by the same test equals filtering once. |
| Seqs.FilterCardinality | server/server.js:199 | Without repeated elements, a filter's length is the number of distinct elements that pass. |
| Catalog.ProductIndex | server/server.js:206 | The result is -1 exactly when no product has the id; otherwise it is the first position holding that id (`find`/`findIndex`). |
| Catalog.Lower | server/server.js:182-183 | `toLowerCase` keeps the length and maps each ASCII capital to its lower-case letter (32 code points later) and leaves every other character alone, character by character. |
| Catalog.ContainsAt | server/server.js:182-183 | `includes` holds exactly when some position of the text starts a copy of the needle. |
| Catalog.FromDraft | server/server.js:216-224 | The built product has the given id and exactly the draft's other fields. |
| Catalog.Contains | server/server.js:182-183 | `includes` never finds a needle longer than the text, and always finds the empty needle. Its exact meaning is `ContainsAt`. |
| Catalog.MatchesSearch | server/server.js:181-184 | The empty search text matches every product, and a matched text is no longer than the product's name or its description. The case-insensitive meaning is `SearchIgnoresCase`. |
| Catalog.SearchFiltered | server/server.js:180-185 | The search filter is no longer than its input, lists only catalog products whose name or description contains the text, and lists every such product. |
| Catalog.CategoryFiltered | server/server.js:188-190 | The category filter is no longer than its input, lists only products whose category equals the query exactly, and lists every such product; an empty category keeps everything. |
| Catalog.Filtered | server/server.js:177-190 | The filtered list is no longer than the catalog and every listed product passes both filters. The full two-way statement, with order, is `FilteredSpec`. |
| Catalog.FilteredIsOnePass | server/server.js:180-190 | The search filter followed by the category filter is a single filter by their conjunction; an empty string applies no filter. |
| Catalog.FilteredSpec | server/server.js:177-190 | Every listed product is a catalog product passing both filters, and every passing catalog product is listed, in catalog order. |
| Catalog.FilteredCount | server/server.js:199 | With unique ids, `total` is the number of catalog products that pass both filters. |
| Catalog.SearchIgnoresCase | server/server.js:181-184 | Searching for a text and for its lower-case form lists the same products. |
| Catalog.MatchIgnoresProductCase | server/server.js:181-184 | Whether a text matches does not depend on the case of the product's name or description. |
| Catalog.PageStartIsProduct | server/server.js:193 | A page starts at index `(page - 1) * limit`. |
| Catalog.Page | server/server.js:193-195 | A page has at most `limit` items. Its length is the slice clipped to the list, and item `i` is the filtered item at `start + i`. |
| Catalog.Slice | server/server.js:195 | `slice(start, end)` is never longer than the list. With both indices inside the list it is exactly `s[start..end]`, and it is empty when the end comes first with both indices on the same side of 0. |
| Catalog.SliceFromEnd | server/server.js:195 | A negative index counts from the end: for indices in `-length..-1`, `slice(start, end)` equals the slice at `length + start` and `length + end`. |
| Catalog.PageBelowOne | server/server.js:193-195 | For page numbers below 1 the handler's slice is as follows. Page 0 is empty. Page `-m` is the block of `limit` items ending `m * limit` items before the end, clipped at the front of the list, and it is empty once that block lies entirely before the front. |
| Catalog.SliceIsPage | server/server.js:193-195 | For page numbers from 1, the handler's slice equals the page. |
| Catalog.TotalPages | server/server.js:201 | This is `Math.ceil(total / limit)`: the smallest page count whose pages can hold `total` items. |
| Catalog.TotalPagesBounds | server/server.js:193-201 | The last page starts before the end of the list, and the page after it starts at or past the end. |
| Catalog.PageStartMonotone | server/server.js:193 | Later pages start later, by at least `limit` items, so pages never overlap. |
| Catalog.PageIsSlice | server/server.js:193-195 | Page `n` is the slice between the clipped starts of pages `n` and `n + 1`. |
| Catalog.FirstPagesArePrefix | server/server.js:193-195 | Pages 1 to `n`, joined in order, are the items before the start of page `n + 1`. |
| Catalog.PagesCoverAll | server/server.js:193-201 | Pages 1 to `totalPages`, joined in order, are exactly the filtered list: each item appears once, in order. |
| Catalog.PageNonEmptyIff | server/server.js:193-201 | A page is non-empty if and only if its number is at most `totalPages`. |
| Carts.CartOf | server/server.js:266 | A user with no stored cart reads the empty cart, and the cart read is well-formed whenever every stored cart is. |
| Carts.LineIndex | server/server.js:309 | The result is -1 exactly when the cart has no line for the product; otherwise it is the first line for it. |
| Carts.QuantityOfSingle | server/server.js:286-289 | In a cart with one line per product, a product's total quantity is the quantity of its line, or 0. |
| Carts.RemoveLine | server/server.js:331 | Afterwards no line is for the product. Every remaining line was in the cart, and every line for another product remains. |
| Carts.RemoveLineInOrder | server/server.js:331 | The remaining lines keep their order. |
| Carts.RemoveLineWellFormed | server/server.js:331 | Removing keeps at most one line per product. |
| Carts.RemoveLineIdempotent | server/server.js:331 | Removing twice equals removing once, and removing a product that has no line leaves the cart unchanged. |
| Carts.SpliceIsRemoveLine | server/server.js:316 | In a cart with one line per product, cutting out the found line by position equals filtering the product out. |
| Carts.QuantityUpdateRemoveLine | server/server.js:318 | Setting one line's quantity leaves every other line unchanged and in order. |
| Carts.AddLine | server/server.js:282-296 | The cart keeps at most one line per product and afterwards has a line for the product. It grows by one line exactly when there was none. |
| Carts.AddLineSpec | server/server.js:286-296 | The product's quantity grows by exactly the added amount, and no other product's quantity changes. Other lines stay unchanged and in order, an existing line keeps its original product snapshot, and a new line goes at the end holding the product. |
| Carts.AddLineTwice | server/server.js:286-289 | Adding `a` and then `b` of a product gives the same cart as adding `a + b` once. |
| Carts.SetLineQuantity | server/server.js:315-319 | A quantity of 0 or less removes one line; any other quantity keeps the cart's length. The rest of its meaning is `SetLineQuantitySpec`. |
| Carts.SetLineQuantitySpec | server/server.js:309-319 | The cart keeps one line per product and other lines stay unchanged and in order. A quantity of 0 or less leaves no line for the product. Any other quantity becomes the line's quantity outright, with the snapshot kept. |
| Ledger.ItemsTotal | server/server.js:344-356 | The sum over items is 0 for no items and is non-negative when all prices and quantities are. It equals the cart's `reduce` total by `CartTotalMatchesItems`. |
| Ledger.OrdersOf | server/server.js:378 | The result holds exactly the ledger's orders of the given user. |
| Ledger.OrdersOfInLedgerOrder | server/server.js:378 | A user's orders come in ledger order. |
| Ledger.OrdersOfAppend | server/server.js:361-378 | Appending an order adds it at the end of its owner's list and leaves other users' lists unchanged. |
| Ledger.OrdersOfAppendEach | server/server.js:361-378 | The same as `OrdersOfAppend`, for every user at once. |
| Checkout.CartTotal | server/server.js:344 | The total of a cart with non-negative prices and quantities is non-negative. |
| Checkout.ItemOf | server/server.js:350-355 | The item keeps the line's product id and quantity, and its price times quantity is the line's subtotal. |
| Checkout.OrderItems | server/server.js:350-355 | There is one item per cart line, in cart order, each keeping the line's product id and quantity and contributing the line's subtotal. Its total is `CartTotalMatchesItems`. |
| Checkout.CartTotalAppend | server/server.js:344 | The `reduce` total splits over concatenated carts. |
| Checkout.CartTotalMatchesItems | server/server.js:344-355 | The cart's `reduce` total equals the sum of price × quantity over the copied order items. |
| Checkout.NewOrder | server/server.js:347-359 | The order has the given id, owner and timestamp, and one item per cart line in cart order. Each item carries the line's product id, the snapshot's name and price, and the line's quantity. For a non-empty cart the order is pending and its total is the sum over its items. |
| Checkout.DecrementOne | server/server.js:368-371 | One step of the stock loop keeps the catalog's length and changes nothing but stock. |
| Checkout.DecrementAll | server/server.js:367-372 | The whole stock loop keeps the catalog's length and changes nothing but stock. |
| Checkout.DecrementAllStep | server/server.js:367-372 | The loop from line `i` is one step on line `i` followed by the loop from line `i + 1`. |
| Checkout.DecrementAllAt | server/server.js:367-372 | With unique ids, each catalog product loses exactly the cart's total quantity for its id, with no lower bound. Lines whose product is gone touch nothing. |
| Checkout.DecrementAllEach | server/server.js:367-372 | This is `DecrementAllAt` for every product, and ids stay unique. |
| Checkout.DecrementForCart | server/server.js:367-372 | With one line per product, each product loses the quantity of its own line, or nothing. |
| Checkout.OversellByRepeatedAdd | server/server.js:278-296 | The stock check ignores what the cart already holds. From a cart without the product, two adds of the whole stock give a well-formed cart holding twice the stock, and checkout leaves the stock at minus its former value. |
| Storefront.SeedProduct | server/server.js:31-68 | Seed product `i` has id `i`. |
| Storefront.SeedCatalog | server/server.js:31-68 | The starting catalog has four products with ids 1 to 4, in order. |
| Storefront.PlacingKeepsInvariant | server/server.js:336-372 | Checking out a non-empty cart keeps the store invariant, covering the stock loop, the emptied cart, and the new order with the largest id so far. |
| Storefront.Store.constructor | server/server.js:31-74 | The store starts with the seed catalog, no carts, no orders, the next product id 5 and the next order id 1, and satisfies the invariant. |
| Storefront.Store.ListProducts | server/server.js:175-203 | The page is `slice((page - 1) * limit, (page - 1) * limit + limit)` of the filtered catalog, which for `page >= 1` is `Page`. `total` is the filtered count, `page` is echoed, and `totalPages = ceil(total / limit)`. Pages below 1 are described by `PageBelowOne`. Every listed product is a catalog product that passes. |
| Storefront.Store.GetProduct | server/server.js:205-211 | The call succeeds if and only if some product has the id, and then returns the first product with that id, as `find` does; otherwise it returns ProductNotFound. |
| Storefront.Store.CreateProduct | server/server.js:213-228 | Non-admin callers get AdminRequired and nothing changes. Otherwise the new product gets the current `nextProductId`, is appended, the counter advances, its id differs from every existing id, and nothing else changes. |
| Storefront.Store.UpdateProduct | server/server.js:230-251 | Non-admin callers get AdminRequired, and an absent id gives ProductNotFound; in both cases nothing changes. Otherwise the product at the found position is replaced by the new fields with the same id, and everything else is unchanged. |
| Storefront.Store.DeleteProduct | server/server.js:253-263 | Non-admin callers get AdminRequired, and an absent id gives ProductNotFound; in both cases nothing changes. Otherwise exactly that position is cut out, the others stay in order, and no product with the id remains. |
| Storefront.Store.GetCart | server/server.js:265-268 | The call returns the user's cart, or the empty cart if the user has none. |
| Storefront.Store.AddItem | server/server.js:270-299 | An absent product gives ProductNotFound, and a quantity above the current stock gives InsufficientStock; in both cases nothing changes. Otherwise the user's cart becomes `AddLine` of it and the other carts and all other state stay unchanged. |
| Storefront.Store.SetQuantity | server/server.js:301-322 | A user with no cart gets CartNotFound, and a cart with no line for the product gives ItemNotFound; in both cases nothing changes. Otherwise the cart becomes `SetLineQuantity` of it and everything else stays unchanged. |
| Storefront.Store.RemoveItem | server/server.js:324-333 | A user with no cart gets CartNotFound and nothing changes. Otherwise the product's lines are filtered out of the cart and everything else stays unchanged. |
| Storefront.Store.PlaceOrder | server/server.js:336-375 | An empty or missing cart gives EmptyCart and nothing changes. Otherwise one `NewOrder` with id `nextOrderId` is appended, the counter advances, only this user's cart is emptied, and products become `DecrementAll` of the cart, keeping the invariant. |
| Storefront.Store.TakeStock | server/server.js:367-372 | The `forEach` loop over the cart leaves the catalog exactly as `DecrementAll` describes. |
| Storefront.Store.TakeLine | server/server.js:368-371 | One iteration of the loop finds the line's product and lowers its stock, as `DecrementOne` describes. |
| Storefront.Store.ListOrders | server/server.js:377-380 | The call returns exactly the caller's orders, in ledger order. |
| Storefront.Store.ListAllOrders | server/server.js:382-384 | Administrators get the whole ledger; other callers get AdminRequired. |

## Left out

- Authentication and registration (`server/server.js:77-172`) are not modelled: bcrypt, JWT signing and verification, and the users list and `nextUserId`. The `authenticateToken` and `requireAdmin` middleware become the `userId` and `isAdmin` parameters of the handler methods.
- Express routing, request and response objects, HTTP status codes and `app.listen` are not modelled. Each status is an `Error` value.
- The `parseInt` and `parseFloat` coercion of query, path and body strings is not modelled. Inputs are typed integers, and prices are integer cents.
- Floating-point prices and the `toFixed(2)` string total are not modelled. Totals are exact integer cents.
- The order timestamp (`new Date().toISOString()`) is clock input. It is the `createdAt` parameter of `PlaceOrder`.
- Storefront.Store.ListProducts: requires `limit >= 1`. A zero or non-numeric `limit` makes `Math.ceil` produce `Infinity` or `NaN`, which has no integer counterpart. The requirement also rules out negative limits, which the source accepts: with 7 products, `limit=-5` and `page=1`, the slice is `slice(0, -5)`, the first 2 products, and `totalPages` is `ceil(7 / -5) = -1`. Page numbers below 1 are modelled through `slice`'s handling of negative indices (`PageBelowOne`).
- The query defaults `page = 1` and `limit = 10` (`server/server.js:176`) are not modelled; callers always pass both numbers.
- Product drafts are typed records, so every field is present. In the source, creating or updating a product without a `name` or `description` stores `undefined` there (`server/server.js:214-224`, `server/server.js:238-248`). A missing `name` then makes every later search with non-empty text throw at `toLowerCase` (`server/server.js:182`). A missing `description` makes a search throw at `server/server.js:183` whenever the text is not in that product's name, because `||` skips the description otherwise. An empty search skips the filter (`server/server.js:180`) and never throws. These failures are not modelled.
- Catalog.Lower: lower-cases the ASCII letters only. JavaScript's full Unicode case mapping is not modelled.
- A cart line's product snapshot is a value copy. In the source it is a reference to the catalog object, so the checkout stock loop is also visible through the stock field of a snapshot that was never replaced. That aliasing of `stock` is not modelled; names and prices of snapshots are exact, because updates install new objects.
- `addItem` does not check that the quantity is positive, and `setQuantity` does not check the stock. The model keeps both behaviours as written.
- The source refuses `removeItem` with "Cart not found" when the user has no cart, rather than treating it as a no-op. The model follows the code.
- The React client under `src/` is display and `fetch` code and is not part of this model.
- There is no concurrency to model, because every handler runs to completion on one thread.
