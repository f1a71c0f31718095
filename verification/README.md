# Storefront state machine (TagHeuer backend) in Dafny

This project models the in-memory state behind the REST handlers of a watch storefront. The state has four stores:

- a **cart store**: one cart per user id. A cart is an insertion-ordered list of lines `{product, quantity, price}` plus a stored `total_price`.
- an **order ledger**: orders keyed by id, each holding a user, lines, a total and a status.
- a **watch catalog**: watches keyed by id.
- a **user registry**: users keyed by id.

Every handler is a pure function from a store and a request to a `Transition`, which holds the store afterwards and a `Result`. HTTP statuses collapse to `Ok`, `BadRequest(reason)` and `NotFound`. Request-body fields are `Option`s. The handlers' `!field` tests are modelled exactly as JavaScript truthiness:

- a number is falsy when it is absent or `0`;
- a string is falsy when it is absent or `""`;
- an array is truthy whenever it is present, even when it is `[]`.

When a document is created, the database assigns its id; here that id is a parameter. If the id is already taken, the store fails with a duplicate-key error. The handler's `catch` turns that into a 400, and the model does the same.

Files, one module each:

- `common.dfy`: ids, truthiness, `Result` and `Transition`.
- `carts.dfy`: the cart handlers and the line arithmetic.
- `orders.dfy`: the order handlers.
- `catalog.dfy`: the watch handlers and keyword search.
- `users.dfy`: the user handlers.
- `store.dfy`: the whole state, one `Step` per request, and the invariants that span requests.

Checkout is not a reconciliation:

- `createOrder` empties the buyer's whole cart, and it never touches the catalog, because the watch model is never imported.
- `addProductToCart` takes the price from the request body and never checks stock.
- There is no decrement-by-one operation.

The model states these behaviours as proved properties. `Orders.CreateOrderDropsUnorderedLines` and `Store.Step` are two of them.

## Model

| member | source | states |
|---|---|---|
| Carts.ReduceTotal | controllers/cartController.js:116-120 | The `reduce` loop that recomputes a cart total computes exactly Σ price×quantity over the lines. |
| Carts.FindIndex | controllers/cartController.js:104-106 | `findIndex` on the product id returns -1 exactly when no line is for the product, and otherwise the first matching position. |
| Carts.MergeLine | controllers/cartController.js:103-114 | If no line matches, the new line is appended and all earlier lines are unchanged. Otherwise only the first matching line changes: its quantity grows by the requested amount, it keeps its captured price, and the line count and order stay the same. |
| Carts.AddProduct | controllers/cartController.js:84-123 | A falsy product, quantity or price (so quantity 0 or price 0 too) gives a bad request and no change. A user without a cart gets a cart with exactly one line and total price×quantity. An existing cart gets its lines merged. The stored total always equals the line sum. Only that user's cart changes. |
| Carts.AddProductQuantities | controllers/cartController.js:95-114 | After an add, the product holds exactly `quantity` more units, and every other product holds the same number as before. |
| Carts.AddProductTotal | controllers/cartController.js:108-120 | The new total is the old line sum plus quantity × the captured price. For a merge that is the existing line's price, even when the request quotes another. For a new line it is the request's price. |
| Carts.AddProductKeepsDistinct | controllers/cartController.js:103-114 | If a cart has at most one line per product, it still does after an add. |
| Carts.RemoveLines | controllers/cartController.js:152-155 | The filter keeps exactly the lines for other products: no line for the removed product survives, and no other line is lost. |
| Carts.RemoveLinesAppend | controllers/cartController.js:153-155 | The filter works piecewise over concatenation, so surviving lines keep their relative order. |
| Carts.RemoveLinesAbsent | controllers/cartController.js:153-155 | Removing a product that has no line leaves the lines unchanged. |
| Carts.RemoveLinesQuantities | controllers/cartController.js:153-155 | Every unit of the removed product goes, and no other product's quantity changes. |
| Carts.RemoveLinesKeepsDistinct | controllers/cartController.js:153-155 | If a cart has at most one line per product, it still does after a removal. |
| Carts.RemoveProduct | controllers/cartController.js:142-166 | A user without a cart gets not-found and no change. Otherwise the cart holds the filtered lines, its total equals their sum, and only that cart changes. |
| Carts.ClearCart | controllers/cartController.js:185-196 | A user without a cart gets not-found. Otherwise the cart becomes empty with total 0, no cart is created or deleted, other carts stay the same, and the total invariant is kept. |
| Carts.ClearCartIdempotent | controllers/cartController.js:185-189 | Clearing twice gives the same store and answer as clearing once. |
| Carts.ReplaceCart | controllers/cartController.js:8-37 | A falsy user, products or total gives a bad request. Otherwise the user's lines and total become exactly the submitted ones, with no recomputation, whether or not a cart existed. Other carts stay the same. |
| Carts.ReplaceCartBreaksConsistency | controllers/cartController.js:19-37 | The wholesale replace accepts a total that disagrees with the lines, so the sum invariant is not guaranteed. |
| Carts.ReplaceCartTruthiness | controllers/cartController.js:9-14 | A total of 0 is rejected, but an empty product array is accepted. |
| Orders.CreateOrder | controllers/orderController.js:9-31 | A falsy user, products or total gives a bad request and no change. Otherwise an order is added under the new id with status `pending` and the submitted user, lines and total, and existing orders stay the same. The buyer's cart, if there is one, becomes empty with total 0. No cart is created, and other carts stay the same. |
| Orders.CreateOrderKeepsCartsConsistent | controllers/orderController.js:28-31 | Checkout keeps every cart's total equal to its line sum. |
| Orders.CreateOrderDropsUnorderedLines | controllers/orderController.js:28-31 | A cart line for a product that was not ordered is dropped as well: checkout empties the cart and does not prune. |
| Orders.CreateOrderTotalUnchecked | controllers/orderController.js:10-25 | An order whose total differs from its line sum is accepted and recorded as submitted. |
| Orders.CreateOrderTruthiness | controllers/orderController.js:10-15 | An empty product array is accepted, but a total of 0 is rejected. |
| Orders.UpdateOrderStatus | controllers/orderController.js:117-138 | A falsy status gives a bad request, even for an unknown id. An unknown id gives not-found. Otherwise only that order's status changes: user, lines and total stay the same, and so do other orders. |
| Orders.DeleteOrder | controllers/orderController.js:155-162 | Exactly that order is removed, and the others stay the same. An unknown id gives not-found with the ledger unchanged. |
| Catalog.MissingRequired | controllers/watchController.js:40-41 | Each of `name`, `brand`, `price` is reported exactly when it is falsy, in that order, and nothing else is reported. |
| Catalog.CreateWatch | controllers/watchController.js:39-58 | Missing fields give a bad request that lists them. A name already in the catalog gives a bad request. In both cases nothing changes. Success happens exactly when the request is complete, the name is new and the id is free, and it adds only the new watch. Name uniqueness is preserved. |
| Catalog.UpdateWatch | controllers/watchController.js:69-103 | Missing fields give a bad request. A name held by another watch gives a bad request, and this check comes before the lookup. An unknown id gives not-found. Success replaces name and price and the other fields the body carries, and only that watch changes. Name uniqueness is preserved. |
| Catalog.UpdateWatchKeepsOwnName | controllers/watchController.js:80-95 | Resubmitting a watch's own name is not a clash. |
| Catalog.DeleteWatch | controllers/watchController.js:114-121 | Exactly that watch is removed. An unknown id gives not-found with the catalog unchanged. Name uniqueness is preserved. |
| Catalog.Search | controllers/watchController.js:132-142 | With no keyword (absent or empty), the result is the whole catalog. Otherwise it is exactly the watches whose name, reference or description contains the keyword, ignoring case. |
| Catalog.MatchesLowerKeyword | controllers/watchController.js:135-137 | For a keyword with no regular-expression special characters, whether a watch matches depends only on the lower-cased keyword. |
| Catalog.SearchIgnoresKeywordCase | controllers/watchController.js:132-142 | A keyword with no regular-expression special characters finds the same watches as its lower-cased form. |
| Catalog.SearchFindsByName | controllers/watchController.js:132-142 | A watch whose name has no regular-expression special characters is found when the keyword is its full name. |
| Users.CreateUser | controllers/userController.js:7-26 | A falsy email, password or username gives a bad request. A registered email gives a bad request. In both cases nothing changes. Success happens exactly when the request is complete, the email is new and the id is free, and it adds only the new user. Email uniqueness is preserved. |
| Users.UpdateUser | controllers/userController.js:80-93 | An unknown id gives not-found. Otherwise each field the body carries replaces the stored one, with no email check, and other users stay the same. |
| Users.UpdateUserBreaksUniqueEmails | controllers/userController.js:80-86 | An update may move a user onto another user's email, so email uniqueness is not preserved by update. |
| Users.DeleteUser | controllers/userController.js:109-115 | Exactly that user is removed. An unknown id gives not-found with the registry unchanged. |
| Users.GetUserById | controllers/userController.js:58-64 | A known id gives that user. An unknown id gives not-found. |
| Store.Step | controllers/orderController.js:1-31 | Each request touches only its own store. Checkout writes only the ledger and the carts, so the catalog and its stock are never touched. Every request the model rejects leaves the whole state unchanged; store failures part-way through are not modelled. |
| Store.StepPreservesInvariant | controllers/cartController.js:95-120 | Every request except the wholesale cart replace keeps both invariants: cart totals equal their line sums, and watch names are unique. |
| Store.StepKeepsWatchNamesUnique | controllers/watchController.js:49-95 | No request of any kind can produce two watches with the same name. |
| Store.ReplaceCartBreaksInvariant | controllers/cartController.js:19-37 | The wholesale cart replace can break the invariant, starting from a state where it held. |

## Left out

- `models/cart.js` is not part of this model. The cart's shape is taken from the handlers and from the order lines in `models/orders.js`.
- The read-only handlers `getCartByUser`, `getAllOrders`, `getOrdersByUser`, `getOrderById`, `getAllWatches`, `getWatchById` and `getAllUsers` are plain lookups with no invariant, and they are not modelled. `getUserById` is modelled.
- The address handlers are plain field-presence checks and CRUD, and they are not modelled.
- Start-up, the database connection, route wiring and authentication are not modelled. Authentication involves JWT verification and reading the `Authorization` header.
- Route wiring has some quirks that the model does not capture. The status route has no `:id`. The search route passes `:val`, but the handler reads `?keyword`. `deleteOrder` is not routed. `getWatchesByCategory`, `loginUser` and `loginAdmin` are imported but never defined.
- Mongoose behaviour is not modelled: schema `required` validation, `runValidators`, `trim` setters, `populate` and `createdAt`/`updatedAt` timestamps.
- A malformed id makes Mongoose throw a cast error, which becomes a 400 or 500. This is not modelled: ids are opaque strings.
- `brand` and `username` are checked by the handlers but are not fields of the watch and user documents. Mongoose's strict mode drops them, so the stored `Watch` and `User` records lack them.
- Catalog.Search: the keyword is treated as a literal substring with ASCII-only lower-casing. The source passes it to MongoDB as a regular expression with the `i` flag, so regex metacharacters and non-ASCII case folding behave differently there.
- Catalog.MatchesLowerKeyword: holds only for keywords without `\ ^ $ . | ? * + ( ) [ ] { }`. For a pattern such as `\D`, lower-casing changes its meaning to `\d`. Non-ASCII case folding is not covered.
- Catalog.SearchIgnoresKeywordCase: restricted to keywords without regular-expression special characters, for the same reason. Non-ASCII case folding is not covered.
- Catalog.SearchFindsByName: restricted to names without regular-expression special characters. A name such as `Carrera (2020)` read as a pattern does not match itself.
- Users.CreateUser: bcrypt hashing in the pre-save hook is not modelled, so the stored password is the submitted one.
- Users.UpdateUser: `findByIdAndUpdate` does not run the pre-save hook, so in the source an updated password is stored unhashed. The model stores passwords as given on both paths, so it does not show this difference.
- Prices and quantities are unbounded integers. JavaScript numbers are doubles, so fractional prices, rounding and `NaN` arithmetic are not modelled. An absent or `NaN` field is `None`.
- Store failures are not modelled. These include lost connections and write errors. The duplicate-key error on a create is the exception. Most handlers answer such a failure with 400 from their `catch`. Lookups, deletes and the read-only handlers answer it with 500.
- Orders.CreateOrder: the order save and the cart reset are two separate, non-atomic writes. If the reset fails after the save, the client gets 400 but the order stays in the ledger. The model performs both writes in one step and does not model store failures.
- Concurrent read-modify-write races on carts are not modelled, because the model is sequential.
