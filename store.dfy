/**
 * The shop's database as one in-memory store, and the cart and order
 * endpoints as methods that update its tables in place. The authenticated
 * user is an explicit parameter of every endpoint.
 */
module Shop {
  import opened Tables
  import Cart
  import Checkout
  import OrderList

  class Store {
    /** products: id -> name, price, stock. */
    var products: map<ProductId, Product>
    /** carts joined with cart_items: the user's cart, as its lines in row order. */
    var carts: map<UserId, seq<CartLine>>
    /** orders, in insertion order. */
    var orders: seq<Order>
    /** order_items, in insertion order. */
    var orderItems: seq<OrderItem>
    /** The next value of the orders table's auto-increment id. */
    var nextOrderId: OrderId

    /**
     * The store invariant: every cart holds at most one line per product,
     * with quantities of at least 1, each for an existing product; order ids
     * are unique and below the next auto-increment value.
     */
    ghost predicate Valid()
      reads this
    {
      && (forall u :: u in carts ==> Cart.WellFormed(carts[u]) && Cart.InCatalog(carts[u], products.Keys))
      && OrderList.UniqueIds(orders)
      && (forall i :: 0 <= i < |orders| ==> orders[i].id < nextOrderId)
    }

    /** A store over a products table, with no carts and no orders. */
    constructor (catalog: map<ProductId, Product>)
      ensures Valid()
      ensures products == catalog && carts == map[] && orders == [] && orderItems == []
      ensures nextOrderId == 1
    {
      products := catalog;
      carts := map[];
      orders := [];
      orderItems := [];
      nextOrderId := 1;
    }

    /** The lines of the user's cart, none if the user has no cart. */
    function Lines(user: UserId): seq<CartLine>
      reads this
    {
      if user in carts then carts[user] else []
    }

    /**
     * getCart: the user's cart, if the user has one; it holds at most one line
     * per product, each with a quantity of at least 1 and an existing product.
     */
    function GetCart(user: UserId): (r: Option<seq<CartLine>>)
      reads this
      requires Valid()
      ensures r.Some? <==> user in carts
      ensures r.Some? ==> r.value == carts[user]
      ensures r.Some? ==> Cart.WellFormed(r.value) && Cart.InCatalog(r.value, products.Keys)
    {
      if user in carts then Some(carts[user]) else None
    }

    /**
     * addToCart: with a quantity missing meaning 1, and validation rejecting
     * an unknown product or a quantity below 1, create the user's cart if it
     * has none and add the quantity to the product's line, or add a line.
     */
    method AddToCart(user: UserId, productId: ProductId, quantity: Option<int>) returns (r: Outcome)
      requires Valid()
      modifies this
      ensures Valid()
      ensures productId !in old(products) || (quantity.Some? && quantity.value < 1) ==>
                r == Fail(ValidationFailed) && unchanged(this)
      ensures productId in old(products) && (quantity.None? || quantity.value >= 1) ==>
                && r == Pass
                && carts == old(carts)[user := Cart.Add(old(Lines(user)), productId, quantity.GetOr(1))]
                && products == old(products) && orders == old(orders)
                && orderItems == old(orderItems) && nextOrderId == old(nextOrderId)
    {
      if productId !in products || (quantity.Some? && quantity.value < 1) {
        return Fail(ValidationFailed);
      }
      var q := quantity.GetOr(1);
      // firstOrCreate: a user without a cart starts from an empty one
      var lines := if user in carts then carts[user] else [];
      var added := Cart.Add(lines, productId, q);
      Cart.AddEffect(lines, productId, q);
      AddKeepsCatalog(lines, productId, q, products.Keys);
      assert Cart.WellFormed(added) && Cart.InCatalog(added, products.Keys);
      carts := carts[user := added];
      r := Pass;
    }

    /**
     * removeItem: fail for an unknown product, a user without a cart or a
     * product without a line; otherwise take one unit off the product's line.
     */
    method RemoveItem(user: UserId, productId: ProductId) returns (r: Outcome)
      requires Valid()
      modifies this
      ensures Valid()
      ensures productId !in old(products) ==> r == Fail(InvalidProduct) && unchanged(this)
      ensures productId in old(products) && user !in old(carts) ==>
                r == Fail(CartNotFound) && unchanged(this)
      ensures productId in old(products) && user in old(carts)
              && productId !in Cart.ProductIds(old(carts[user])) ==>
                r == Fail(NotInCart) && unchanged(this)
      ensures productId in old(products) && user in old(carts)
              && productId in Cart.ProductIds(old(carts[user])) ==>
                && r == Pass
                && carts == old(carts)[user := Cart.RemoveOne(old(carts[user]), productId)]
                && products == old(products) && orders == old(orders)
                && orderItems == old(orderItems) && nextOrderId == old(nextOrderId)
    {
      if productId !in products {
        return Fail(InvalidProduct);
      }
      if user !in carts {
        return Fail(CartNotFound);
      }
      var lines := carts[user];
      if Cart.Find(lines, productId).None? {
        assert productId !in Cart.ProductIds(lines);
        return Fail(NotInCart);
      }
      Cart.RemoveOneEffect(lines, productId);
      carts := carts[user := Cart.RemoveOne(lines, productId)];
      RemoveOneKeepsCatalog(lines, Cart.RemoveOne(lines, productId), productId, products.Keys);
      r := Pass;
    }

    /** clearCart: delete every line of the user's cart, keeping the cart; no cart is no change. */
    method ClearCart(user: UserId) returns (r: Outcome)
      requires Valid()
      modifies this
      ensures Valid()
      ensures r == Pass
      ensures carts == Cleared(old(carts), user)
      ensures products == old(products) && orders == old(orders)
      ensures orderItems == old(orderItems) && nextOrderId == old(nextOrderId)
    {
      if user in carts {
        carts := carts[user := []];
      }
      r := Pass;
    }

    /**
     * update: with validation rejecting an unknown product or a quantity
     * below 1, fail for a user without a cart, a product without a line, or a
     * stock below the quantity; otherwise set the line's quantity.
     */
    method Update(user: UserId, productId: ProductId, quantity: int) returns (r: Outcome)
      requires Valid()
      modifies this
      ensures Valid()
      ensures productId !in old(products) || quantity < 1 ==> r == Fail(ValidationFailed) && unchanged(this)
      ensures productId in old(products) && quantity >= 1 && user !in old(carts) ==>
                r == Fail(CartNotFound) && unchanged(this)
      ensures productId in old(products) && quantity >= 1 && user in old(carts)
              && productId !in Cart.ProductIds(old(carts[user])) ==>
                r == Fail(NotInCart) && unchanged(this)
      ensures productId in old(products) && quantity >= 1 && user in old(carts)
              && productId in Cart.ProductIds(old(carts[user])) && old(products[productId].stock) < quantity ==>
                r == Fail(InsufficientStock) && unchanged(this)
      ensures productId in old(products) && quantity >= 1 && user in old(carts)
              && productId in Cart.ProductIds(old(carts[user])) && old(products[productId].stock) >= quantity ==>
                && r == Pass
                && carts == old(carts)[user := Cart.SetQuantity(old(carts[user]), productId, quantity)]
                && products == old(products) && orders == old(orders)
                && orderItems == old(orderItems) && nextOrderId == old(nextOrderId)
    {
      if productId !in products || quantity < 1 {
        return Fail(ValidationFailed);
      }
      if user !in carts {
        return Fail(CartNotFound);
      }
      var lines := carts[user];
      if Cart.Find(lines, productId).None? {
        assert productId !in Cart.ProductIds(lines);
        return Fail(NotInCart);
      }
      if products[productId].stock < quantity {
        return Fail(InsufficientStock);
      }
      Cart.SetQuantityEffect(lines, productId, quantity);
      carts := carts[user := Cart.SetQuantity(lines, productId, quantity)];
      SetQuantityKeepsCatalog(lines, productId, quantity, products.Keys);
      r := Pass;
    }

    /**
     * createOrder, as written: fail on a missing or empty cart; otherwise sum
     * the total, create a pending order, then walk the lines, returning at
     * the first line whose product lacks stock (keeping the order, the
     * decrements and the items made so far, and the cart), and on success
     * delete the cart's lines.
     */
    method CreateOrder(user: UserId) returns (r: Result<OrderId>)
      requires Valid()
      modifies this
      ensures Valid()
      ensures old(Lines(user)) == [] ==> r == Failure(EmptyCart) && unchanged(this)
      ensures old(Lines(user)) != [] ==>
                var lines := old(carts[user]);
                var id := old(nextOrderId);
                var w := Checkout.Walk(id, old(products), lines);
                && nextOrderId == id + 1
                && orders == old(orders) + [Order(id, user, Checkout.Total(old(products), lines), Pending)]
                && products == w.products
                && orderItems == old(orderItems) + w.items
                && (w.failedAt.None? ==> r == Success(id) && carts == old(carts)[user := []])
                && (w.failedAt.Some? ==>
                      && r == Failure(OutOfStock(old(products)[lines[w.failedAt.value].productId].name))
                      && carts == old(carts))
    {
      if user !in carts || |carts[user]| == 0 {
        return Failure(EmptyCart);
      }
      var lines := carts[user];
      assert Cart.InCatalog(lines, products.Keys);
      var total := SumTotal(lines);
      var id := nextOrderId;
      orders := orders + [Order(id, user, total, Pending)];
      nextOrderId := nextOrderId + 1;
      OrderAppendKeepsIds(old(orders), id, user, total, old(nextOrderId));
      var failedAt := TakeStock(id, lines);
      if failedAt.Some? {
        Checkout.WalkKeepsNamesAndPrices(id, old(products), lines);
        return Failure(OutOfStock(products[lines[failedAt.value].productId].name));
      }
      carts := carts[user := []];
      r := Success(id);
    }

    /** The first loop of createOrder: the sum of `price * quantity` over the lines. */
    method SumTotal(lines: seq<CartLine>) returns (total: Money)
      requires Cart.InCatalog(lines, products.Keys)
      ensures total == Checkout.Total(products, lines)
    {
      total := 0;
      var i := 0;
      while i < |lines|
        invariant 0 <= i <= |lines|
        invariant total == Checkout.Total(products, lines[..i])
      {
        assert lines[..i + 1][..i] == lines[..i];
        total := total + products[lines[i].productId].price * lines[i].quantity;
        i := i + 1;
      }
      assert lines[..|lines|] == lines;
    }

    /**
     * The second loop of createOrder for order `id`: per line, return the
     * line's index if its product's stock is below its quantity, otherwise
     * take the quantity off the stock and record an order item.
     */
    method TakeStock(id: OrderId, lines: seq<CartLine>) returns (failedAt: Option<nat>)
      requires Cart.InCatalog(lines, products.Keys)
      modifies this`products, this`orderItems
      ensures var w := Checkout.Walk(id, old(products), lines);
        && products == w.products
        && orderItems == old(orderItems) + w.items
        && failedAt == w.failedAt
    {
      ghost var catalog := products;
      var i := 0;
      while i < |lines|
        invariant 0 <= i <= |lines|
        invariant Checkout.Walk(id, catalog, lines[..i]).failedAt.None?
        invariant products == Checkout.Walk(id, catalog, lines[..i]).products
        invariant orderItems == old(orderItems) + Checkout.Walk(id, catalog, lines[..i]).items
      {
        assert lines[..i + 1][..i] == lines[..i];
        var line := lines[i];
        var product := products[line.productId];
        if product.stock < line.quantity {
          Checkout.WalkStops(id, catalog, lines, i + 1);
          return Some(i);
        }
        products := products[line.productId := product.(stock := product.stock - line.quantity)];
        orderItems := orderItems + [OrderItem(id, line.productId, line.quantity, product.price)];
        i := i + 1;
      }
      assert lines[..|lines|] == lines;
      failedAt := None;
    }

    /**
     * listOrders: the user's orders, exactly those whose user is the caller,
     * each as often as in the table, in strictly descending id order.
     */
    method ListOrders(user: UserId) returns (r: seq<Order>)
      requires Valid()
      ensures forall o :: o in r <==> o in orders && o.userId == user
      ensures forall o: Order :: o.userId == user ==> multiset(r)[o] == multiset(orders)[o]
      ensures OrderList.DescendingIds(r)
    {
      r := OrderList.ListOrders(orders, user);
    }
  }

  /** The carts table after clearCart for `user`. */
  function Cleared(carts: map<UserId, seq<CartLine>>, user: UserId): (r: map<UserId, seq<CartLine>>)
    ensures r.Keys == carts.Keys
    ensures user in r ==> r[user] == []
    ensures forall u :: u in r && u != user ==> r[u] == carts[u]
  {
    if user in carts then carts[user := []] else carts
  }

  /** clearCart applied twice leaves the carts as clearCart applied once. */
  lemma ClearedIdempotent(carts: map<UserId, seq<CartLine>>, user: UserId)
    ensures Cleared(Cleared(carts, user), user) == Cleared(carts, user)
  {
  }

  /** Adding an existing product to a cart of existing products keeps every line's product existing. */
  lemma AddKeepsCatalog(lines: seq<CartLine>, p: ProductId, q: int, ids: set<ProductId>)
    requires Cart.InCatalog(lines, ids) && p in ids
    ensures Cart.InCatalog(Cart.Add(lines, p, q), ids)
  {
  }

  /** Taking a unit off a cart of existing products keeps every line's product existing. */
  lemma RemoveOneKeepsCatalog(lines: seq<CartLine>, r: seq<CartLine>, p: ProductId, ids: set<ProductId>)
    requires Cart.InCatalog(lines, ids)
    requires r == Cart.RemoveOne(lines, p)
    ensures Cart.InCatalog(r, ids)
  {
    match Cart.Find(lines, p)
    case None =>
    case Some(i) =>
      if lines[i].quantity <= 1 {
        forall a | 0 <= a < |r| ensures r[a].productId in ids {
          assert r[a] == lines[if a < i then a else a + 1];
        }
      }
  }

  /** Setting a quantity in a cart of existing products keeps every line's product existing. */
  lemma SetQuantityKeepsCatalog(lines: seq<CartLine>, p: ProductId, q: int, ids: set<ProductId>)
    requires Cart.InCatalog(lines, ids)
    ensures Cart.InCatalog(Cart.SetQuantity(lines, p, q), ids)
  {
  }

  /** Appending an order under the next id keeps ids unique and below the advanced next id. */
  lemma OrderAppendKeepsIds(orders: seq<Order>, id: OrderId, user: UserId, total: Money, next: OrderId)
    requires OrderList.UniqueIds(orders)
    requires forall i :: 0 <= i < |orders| ==> orders[i].id < next
    requires id == next
    ensures OrderList.UniqueIds(orders + [Order(id, user, total, Pending)])
    ensures forall i :: 0 <= i < |orders| + 1 ==> (orders + [Order(id, user, total, Pending)])[i].id < next + 1
  {
  }
}
