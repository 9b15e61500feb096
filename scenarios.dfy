/**
 * Concrete runs of the store: the expectations of CartTest and OrderTest,
 * plus two failure paths of createOrder. Each method builds a store, calls
 * the endpoints and returns what it inspects; its postcondition states the
 * outcome. Where OrderTest inserts the cart rows directly, the scenario
 * builds the cart through addToCart, and it states more of the outcome than
 * the test checks (the total, the recorded item, the emptied cart).
 */
module Scenarios {
  import opened Tables
  import Checkout
  import Shop

  /** Adding 2 units of a product to an empty cart leaves one line of quantity 2. */
  method AddTwoToEmptyCart() returns (r: Outcome, lines: seq<CartLine>)
    ensures r == Pass
    ensures lines == [CartLine(1, 2)]
  {
    var store := new Shop.Store(map[1 := Product("Telefon", 100000, 10)]);
    r := store.AddToCart(7, 1, Some(2));
    lines := store.carts[7];
  }

  /**
   * Ordering a cart with 2 units of a product priced 200.00 with stock 5
   * succeeds, leaves stock 3, totals 400.00, records one item and empties the
   * cart.
   */
  method OrderReducesStock() returns (r: Result<OrderId>, stock: int, total: Money, items: seq<OrderItem>, lines: seq<CartLine>)
    ensures r.Success?
    ensures stock == 3
    ensures total == 40000
    ensures items == [OrderItem(1, 1, 2, 20000)]
    ensures lines == []
  {
    var store := new Shop.Store(map[1 := Product("Kulaklık", 20000, 5)]);
    var added := store.AddToCart(7, 1, Some(2));
    var cart := store.carts[7];
    assert cart == [CartLine(1, 2)];
    assert [CartLine(1, 2)][..0] == [];
    var catalog := store.products;
    r := store.CreateOrder(7);
    assert Checkout.Walk(1, catalog, [CartLine(1, 2)]).items == [OrderItem(1, 1, 2, 20000)];
    stock := store.products[1].stock;
    total := store.orders[0].totalAmount;
    items := store.orderItems;
    lines := store.carts[7];
  }

  /**
   * Ordering 2 units of a product with stock 1 fails naming the product and
   * leaves the stock at 1 — and, as the controller is written, leaves a
   * pending order with the full total and no items behind.
   */
  method OrderWithoutStock() returns (r: Result<OrderId>, stock: int, orders: seq<Order>, items: seq<OrderItem>, lines: seq<CartLine>)
    ensures r == Failure(OutOfStock("Kulaklık"))
    ensures stock == 1
    ensures orders == [Order(1, 7, 40000, Pending)]
    ensures items == []
    ensures lines == [CartLine(1, 2)]
  {
    var store := new Shop.Store(map[1 := Product("Kulaklık", 20000, 1)]);
    var added := store.AddToCart(7, 1, Some(2));
    var cart := store.carts[7];
    assert cart == [CartLine(1, 2)];
    assert [CartLine(1, 2)][..0] == [];
    r := store.CreateOrder(7);
    stock := store.products[1].stock;
    orders := store.orders;
    items := store.orderItems;
    lines := store.carts[7];
  }

  /** Ordering with no cart fails with an empty-cart error and creates no order. */
  method OrderWithoutCart() returns (r: Result<OrderId>, orders: seq<Order>)
    ensures r == Failure(EmptyCart)
    ensures orders == []
  {
    var store := new Shop.Store(map[1 := Product("Kulaklık", 20000, 5)]);
    r := store.CreateOrder(7);
    orders := store.orders;
  }
}
