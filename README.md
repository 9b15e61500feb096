# Cart and checkout of an e-commerce REST backend, in Dafny

This project models the cart and order endpoints of a Laravel e-commerce
backend (`CartController` and `OrderController`) over one in-memory store
that holds the relevant tables:

- `products`: id, name, price and stock;
- `carts` with their `cart_items`: one cart per user, holding lines
  (product id, quantity) in row order;
- `orders`: id, user, total amount and status;
- `order_items`: order id, product id, quantity and unit price.

The store is the class `Shop.Store`, and each endpoint is a method on it:
getCart, addToCart, removeItem, clearCart, update, createOrder and
listOrders. Each endpoint's `ensures` states its new state in full,
listing the tables that stay unchanged. The authenticated user is an
explicit parameter. The responses of the endpoints that write are mapped
to an `Outcome` (`Pass` / `Fail(error)`) or, for createOrder, a `Result`
(`Success(order id)` / `Failure(error)`). getCart returns the cart as an
`Option` (none when the user has no cart), and listOrders returns the
sequence of orders. Money is an integer number of kuruş (hundredths of a
lira), so a price of 200.00 is `20000`.

Modules:

- `Tables`: the rows of the tables and the error kinds.
- `Cart`: the cart-line operations as functions on a sequence of lines:
  - `Add`, the merge in addToCart;
  - `RemoveOne`, in removeItem;
  - `SetQuantity`, in update.

  They come with the lemmas that describe their effect through two views
  of a cart. `QuantityOf` gives the units held per product. `Without` gives
  the lines of the other products.
- `Checkout`: the two loops of createOrder.
  - `Total` is the sum of price × quantity.
  - `Walk` is the stock-taking loop, as a function. It stops at the first
    line whose stock is short.

  The lemmas give closed forms for both outcomes.
- `OrderList`: listOrders, a filter by user followed by a sort by id,
  descending.
- `Shop`: the store class, whose methods carry the loops (`SumTotal`,
  `TakeStock`). Each loop is proved against the `Checkout` functions.
- `Scenarios`: CartTest's and OrderTest's expectations, plus two failure
  paths of createOrder (a short stock, no cart). The scenarios that need a
  cart build it through addToCart, where OrderTest inserts the cart and
  cart_items rows directly.

The store invariant `Shop.Store.Valid` says three things:

- a cart holds at most one line per product;
- every quantity is at least 1 and every line names an existing product;
- order ids are unique and below the next auto-increment value.

Every endpoint preserves it.

createOrder is modelled as `OrderController.php` is written:

- It runs no transaction. It creates the pending order row, with the full
  total, before any stock check (OrderController.php:32-36).
- It then checks and decrements stock line by line. A line whose product
  has too little stock returns at OrderController.php:42-46. The order row,
  the decrements and the order items of the earlier lines stay behind, and
  the cart is not cleared (`Checkout.WalkFailed`,
  `Scenarios.OrderWithoutStock`).
- It sends no email or other notification.

## Model

| member | source | states |
|---|---|---|
| Cart.Find | app/Http/Controllers/CartController.php:94-96 | the line lookup by cart and product: when it finds an index, that line holds the product and no earlier line does; when it finds none, no line holds the product |
| Cart.Add | app/Http/Controllers/CartController.php:94-106 | the merge of addToCart keeps every existing line in its place with its product, changes no line of another product, and adds at most one line, which is the new product with the requested quantity |
| Cart.RemoveOne | app/Http/Controllers/CartController.php:190-195 | the change of removeItem removes at most one line; every line of another product is one the cart already held; when no line is removed, every line keeps its place and product and other products' lines are unchanged |
| Cart.SetQuantity | app/Http/Controllers/CartController.php:316-317 | the change of update keeps the lines and their products in place and changes no line of another product |
| Cart.AddEffect | app/Http/Controllers/CartController.php:93-107 | adding q units of p raises p's total quantity by exactly q and leaves every other product's quantity and lines unchanged; a line is added exactly when p had none; the products in the cart gain p; at most one line per product with quantities ≥ 1 is preserved when q ≥ 1 |
| Cart.RemoveOneEffect | app/Http/Controllers/CartController.php:190-195 | on a well-formed cart holding p: p's quantity drops by exactly 1 and other products' lines are untouched; a line with quantity > 1 stays (same length, same products), and a line with quantity 1 is deleted (one line fewer, p gone); well-formedness is preserved |
| Cart.SetQuantityEffect | app/Http/Controllers/CartController.php:315-317 | on a well-formed cart holding p: p's quantity becomes exactly q, every other product's quantity and lines are unchanged, the length and the products are unchanged, and well-formedness is kept when q ≥ 1 |
| Checkout.Total | app/Http/Controllers/OrderController.php:24-29 | the order total over lines with non-negative quantities and prices is non-negative |
| Checkout.Walk | app/Http/Controllers/OrderController.php:39-58 | the stock-taking loop keeps the set of products and, when it stops early, stops at an index of a cart line |
| Checkout.WalkStops | app/Http/Controllers/OrderController.php:42-46 | once the loop has returned at a line, the later lines change nothing |
| Checkout.SnapshotItems | app/Http/Controllers/OrderController.php:52-57 | the items recorded for the lines are one per line, the i-th carrying order id, line i's product and quantity, and the product's price |
| Checkout.SnapshotTotal | app/Http/Controllers/OrderController.php:24-29 | the sum of price × quantity over the recorded items equals the order total computed over the cart |
| Checkout.WalkOutcome | app/Http/Controllers/OrderController.php:39-58 | on a cart with one line per product, the loop either stops at the first line whose stock is below its quantity, with exactly the earlier lines decremented and recorded, or runs through with every line decremented and recorded |
| Checkout.WalkSucceedsIffStocked | app/Http/Controllers/OrderController.php:42-46 | on a cart with one line per product, the loop runs through if and only if every line's product has stock ≥ the line's quantity |
| Checkout.WalkSucceeded | app/Http/Controllers/OrderController.php:42-57 | on success every ordered product's stock drops by exactly its quantity and stays ≥ 0, every other product is unchanged, and there is one item per line with the line's product, quantity and price, whose sum is the order total |
| Checkout.WalkFailed | app/Http/Controllers/OrderController.php:39-50 | on failure at line k: line k is the first whose stock is short, the lines before k are decremented and have items (k of them), and products not among those lines are unchanged |
| Checkout.WalkKeepsStockNonNegative | app/Http/Controllers/OrderController.php:42-50 | every stock the loop changes ends ≥ 0; other stocks are unchanged |
| Checkout.WalkKeepsNamesAndPrices | app/Http/Controllers/OrderController.php:44-56 | the loop changes only stocks: product names (used in the error message) and prices (copied into the items) are unchanged |
| OrderList.OwnedByCounts | app/Http/Controllers/OrderController.php:73 | the filter keeps each of the caller's orders exactly as often as the table holds it |
| OrderList.OwnedBy | app/Http/Controllers/OrderController.php:73 | exactly the orders whose user is the caller; unique ids stay unique |
| OrderList.SortByIdDesc | app/Http/Controllers/OrderController.php:75 | the sort by id is a permutation of its input |
| OrderList.InsertOrdered | app/Http/Controllers/OrderController.php:75 | inserting into a sequence ordered by id, descending, keeps it ordered |
| OrderList.SortOrdered | app/Http/Controllers/OrderController.php:75 | the sort yields ids in non-increasing order and keeps unique ids unique |
| OrderList.ListOrders | app/Http/Controllers/OrderController.php:71-76 | the result holds exactly the caller's orders, each as often as in the table, and in strictly descending id order when ids are unique |
| Shop.Store.GetCart | app/Http/Controllers/CartController.php:39-49 | a cart is returned exactly when the user has one, it is that user's lines, and it has one line per product, quantities ≥ 1 and existing products |
| Shop.Store.AddToCart | app/Http/Controllers/CartController.php:79-115 | rejects an unknown product or a quantity below 1 with no change; otherwise creates the cart if missing and adds the quantity (1 when absent) to the product's line or a new line; nothing else changes |
| Shop.Store.RemoveItem | app/Http/Controllers/CartController.php:154-206 | fails with no change for an unknown product, a missing cart, or a product not in the cart; otherwise removes one unit of the product; nothing else changes |
| Shop.Store.ClearCart | app/Http/Controllers/CartController.php:227-241 | always succeeds; the user's cart, if any, is emptied but kept; other carts and tables are unchanged |
| Shop.Store.Update | app/Http/Controllers/CartController.php:271-325 | fails with no change on a validation error, a missing cart, a product not in the cart, or stock below the quantity; otherwise sets the line's quantity; nothing else changes |
| Shop.Store.CreateOrder | app/Http/Controllers/OrderController.php:12-68 | a missing or empty cart fails with no change; otherwise a pending order with the cart's total is appended under the next id, and products and items become the loop's result; on success the caller gets the order id and the cart is emptied, and on failure the error names the first short product and the cart is unchanged |
| Shop.Store.SumTotal | app/Http/Controllers/OrderController.php:24-29 | the accumulated total is the sum of price × quantity over the lines |
| Shop.Store.TakeStock | app/Http/Controllers/OrderController.php:39-58 | the loop's effect on products and items, and the index it returns at, are those of the stock-taking walk |
| Shop.Store.ListOrders | app/Http/Controllers/OrderController.php:71-82 | returns exactly the caller's orders, each as often as in the table, in strictly descending id order |
| Shop.Cleared | app/Http/Controllers/CartController.php:229-233 | the carts after a clear: same users, the user's lines empty, other users' lines unchanged |
| Shop.ClearedIdempotent | app/Http/Controllers/CartController.php:229-233 | clearing twice is the same as clearing once |
| Scenarios.AddTwoToEmptyCart | tests/Feature/CartTest.php:16-38 | adding 2 units to an empty cart succeeds and leaves one line with quantity 2 |
| Scenarios.OrderReducesStock | tests/Feature/OrderTest.php:17-45 | ordering 2 units at 200.00 with stock 5 succeeds, leaves stock 3 and total 400.00, records one item and empties the cart |
| Scenarios.OrderWithoutStock | app/Http/Controllers/OrderController.php:32-46 | ordering 2 units with stock 1 fails naming the product; stock stays 1, a pending order of 400.00 remains without items, and the cart is kept |
| Scenarios.OrderWithoutCart | app/Http/Controllers/OrderController.php:18-22 | ordering without a cart fails as an empty cart, and no order is created |

## Left out

- HTTP responses: the JSON envelopes, status codes and message texts are reduced to an error kind. The exception is the out-of-stock error, which carries the product name.
- Response payloads are not modelled. These are the added or updated cart item, the eager-loaded `items.product` relations of getCart, createOrder and listOrders, and removeItem's `remaining_quantity`. That last one reads a model object that may already have been deleted.
- Authentication: `auth()->id()` is the `user` parameter of each method.
- Validation: the `exists:products,id` and `integer|min:1` rules become one error kind, `ValidationFailed`. The request's type checks (a non-integer quantity) have no counterpart, because the parameters are typed.
- Cart ids: the carts table is a map from user to lines. `firstOrCreate` on the user id gives one cart per user, so the cart id adds nothing.
- Row order: the order of `$cart->items`, and which row `first()` picks, is taken to be insertion order.
- Concurrency: two simultaneous checkouts can race between the stock check and the decrement. The model is sequential and adds no transaction or rollback.
- Floating point: PHP multiplies decimal strings as floats. The model uses integer kuruş.
- Column width: no database column width is modelled. Money, quantities and stock are unbounded integers.
  - The `decimal(10,2)` range of `total_amount` and `price` is ignored (database/migrations/2025_11_16_101315_update_orders_tables.php:18, :35).
  - The `integer` columns for `order_items.quantity` (same migration, :34), for cart-line quantities and for product stock are ignored too.
- Shop.Store.AddToCart: does not fail for a quantity that the database's `integer` column cannot hold, such as 2^31. The `integer` validator (app/Http/Controllers/CartController.php:83) accepts any PHP integer, so in the source `save()` or `create()` raises a database error there, but the model returns `Pass`.
- Shop.Store.Update: does not fail for a quantity that the column cannot hold (validator at app/Http/Controllers/CartController.php:275). The model returns `Pass` where the source's `save()` raises.
- Shop.Store.CreateOrder: does not fail when a decrement or an order item leaves a column's range. The model has no such failure.
- Other operations are not part of this model, plain CRUD without logic:
  - product create, update, delete and detail;
  - product listing with filters and pagination;
  - categories and users;
  - login and token issuance;
  - the admin dashboard;
  - the email template.
- Shop.Store.Valid: the product-existence part assumes products are never deleted, because product deletion is not modelled.
- Stock: the product validator's rules (`ProductRequest`) are not part of this model, so the model does not assume stock ≥ 0. It proves instead that createOrder sets every stock it changes to a value ≥ 0.
- Timestamps and the ids of cart and order-item rows are not modelled.
