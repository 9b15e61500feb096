/**
 * The rows of the shop's tables (products, cart lines, orders, order items)
 * and the outcomes of the cart and order endpoints.
 *
 * Prices and totals are integers in minor units (kuruş); the database columns
 * are decimal(10,2).
 */
module Tables {

  type ProductId = nat
  type UserId = nat
  type OrderId = nat

  /** An amount of money in kuruş. */
  type Money = int

  datatype Option<+T> = None | Some(value: T) {
    function GetOr(default: T): T {
      match this
      case Some(v) => v
      case None => default
    }
  }

  /** A row of the products table, reduced to the columns the checkout path reads. */
  datatype Product = Product(name: string, price: Money, stock: int)

  /** A row of the cart_items table of one cart. */
  datatype CartLine = CartLine(productId: ProductId, quantity: int)

  /** The orders table's status column, a free string. */
  type Status = string

  /** The only status the checkout writes: a new order is pending. */
  const Pending: Status := "pending"

  /** A row of the orders table. */
  datatype Order = Order(id: OrderId, userId: UserId, totalAmount: Money, status: Status)

  /** A row of the order_items table: a snapshot of a product, quantity and price. */
  datatype OrderItem = OrderItem(orderId: OrderId, productId: ProductId, quantity: int, price: Money)

  /** The error answers of the cart and order endpoints. */
  datatype Error =
    | ValidationFailed         // a request validator rejected the input (422)
    | InvalidProduct           // removeItem: no product with that id (404)
    | CartNotFound             // the user has no cart (404)
    | NotInCart                // the cart has no line for the product (404)
    | InsufficientStock        // update: stock below the requested quantity (400)
    | EmptyCart                // createOrder: no cart, or a cart without lines (400)
    | OutOfStock(name: string) // createOrder: a line's product lacks stock (400)

  /** The answer of an endpoint that returns no value of interest. */
  datatype Outcome = Pass | Fail(error: Error)

  /** The answer of an endpoint that returns a value. */
  datatype Result<+T> = Success(value: T) | Failure(error: Error)
}
