/**
 * What createOrder computes from the products table and the caller's cart
 * lines: the order total (its first loop) and the walk over the lines that
 * checks stock, decrements it and records order items (its second loop),
 * which stops at the first line whose product lacks stock.
 */
module Checkout {
  import opened Tables
  import Cart

  /** The products table. */
  type Catalog = map<ProductId, Product>

  /** The sum of `price * quantity` over the lines, at the prices in `products`. */
  function Total(products: Catalog, lines: seq<CartLine>): (r: Money)
    requires Cart.InCatalog(lines, products.Keys)
    ensures (forall i :: 0 <= i < |lines| ==> lines[i].quantity >= 0 && products[lines[i].productId].price >= 0) ==> r >= 0
    decreases |lines|
  {
    if lines == [] then 0
    else
      var last := lines[|lines| - 1];
      Total(products, lines[..|lines| - 1]) + products[last.productId].price * last.quantity
  }

  /** The sum of `price * quantity` over order items. */
  function ItemsTotal(items: seq<OrderItem>): Money
    decreases |items|
  {
    if items == [] then 0
    else
      var last := items[|items| - 1];
      ItemsTotal(items[..|items| - 1]) + last.price * last.quantity
  }

  /** The order items that record `lines` at the prices in `products`. */
  function Snapshot(orderId: OrderId, products: Catalog, lines: seq<CartLine>): seq<OrderItem>
    requires Cart.InCatalog(lines, products.Keys)
    decreases |lines|
  {
    if lines == [] then []
    else
      var last := lines[|lines| - 1];
      Snapshot(orderId, products, lines[..|lines| - 1])
        + [OrderItem(orderId, last.productId, last.quantity, products[last.productId].price)]
  }

  /** The products table with the units of `lines` taken off each product's stock. */
  function Decreased(products: Catalog, lines: seq<CartLine>): Catalog
  {
    map x | x in products :: products[x].(stock := products[x].stock - Cart.QuantityOf(lines, x))
  }

  /**
   * The state of the second loop of createOrder: the products table, the
   * order items recorded so far, and the index of the line at which it
   * returned early, if it did.
   */
  datatype WalkState = WalkState(products: Catalog, items: seq<OrderItem>, failedAt: Option<nat>)

  /**
   * The second loop of createOrder over `lines`, for order `orderId`: for each
   * line, stop if the product's current stock is below the line's quantity;
   * otherwise take the quantity off the stock and record an order item with
   * the product's price.
   */
  function Walk(orderId: OrderId, products: Catalog, lines: seq<CartLine>): (w: WalkState)
    requires Cart.InCatalog(lines, products.Keys)
    ensures w.products.Keys == products.Keys
    ensures w.failedAt.Some? ==> w.failedAt.value < |lines|
    decreases |lines|
  {
    if lines == [] then WalkState(products, [], None)
    else
      var w := Walk(orderId, products, lines[..|lines| - 1]);
      if w.failedAt.Some? then w
      else
        var line := lines[|lines| - 1];
        var product := w.products[line.productId];
        if product.stock < line.quantity then w.(failedAt := Some(|lines| - 1))
        else
          WalkState(w.products[line.productId := product.(stock := product.stock - line.quantity)],
                    w.items + [OrderItem(orderId, line.productId, line.quantity, product.price)],
                    None)
  }

  // ---------------------------------------------------------------------------
  // Lemmas

  /** Once the walk has stopped at a line, the lines after it change nothing. */
  lemma {:induction false} WalkStops(orderId: OrderId, products: Catalog, lines: seq<CartLine>, k: nat)
    requires Cart.InCatalog(lines, products.Keys)
    requires k <= |lines|
    requires Walk(orderId, products, lines[..k]).failedAt.Some?
    ensures Walk(orderId, products, lines) == Walk(orderId, products, lines[..k])
    decreases |lines|
  {
    if k < |lines| {
      var pre := lines[..|lines| - 1];
      assert pre[..k] == lines[..k];
      WalkStops(orderId, products, pre, k);
    } else {
      assert lines[..k] == lines;
    }
  }

  /** The order items of a snapshot are the lines, one for one, at the prices of `products`. */
  lemma {:induction false} SnapshotItems(orderId: OrderId, products: Catalog, lines: seq<CartLine>)
    requires Cart.InCatalog(lines, products.Keys)
    ensures var items := Snapshot(orderId, products, lines);
      && |items| == |lines|
      && forall i :: 0 <= i < |lines| ==>
           items[i] == OrderItem(orderId, lines[i].productId, lines[i].quantity, products[lines[i].productId].price)
    decreases |lines|
  {
    if lines != [] {
      SnapshotItems(orderId, products, lines[..|lines| - 1]);
    }
  }

  /** The order total equals the sum over the order items that snapshot the lines. */
  lemma {:induction false} SnapshotTotal(orderId: OrderId, products: Catalog, lines: seq<CartLine>)
    requires Cart.InCatalog(lines, products.Keys)
    ensures ItemsTotal(Snapshot(orderId, products, lines)) == Total(products, lines)
    decreases |lines|
  {
    if lines != [] {
      var pre := lines[..|lines| - 1];
      SnapshotTotal(orderId, products, pre);
      var items := Snapshot(orderId, products, lines);
      assert items[..|items| - 1] == Snapshot(orderId, products, pre);
    }
  }

  /** Taking one more line off the stock: the last line's product loses its quantity. */
  lemma DecreasedStep(products: Catalog, lines: seq<CartLine>)
    requires lines != []
    requires lines[|lines| - 1].productId in products
    ensures var pre := lines[..|lines| - 1];
      var line := lines[|lines| - 1];
      var d := Decreased(products, pre);
      Decreased(products, lines) == d[line.productId := d[line.productId].(stock := d[line.productId].stock - line.quantity)]
  {
    var pre := lines[..|lines| - 1];
    var line := lines[|lines| - 1];
    var d := Decreased(products, pre);
    var e := d[line.productId := d[line.productId].(stock := d[line.productId].stock - line.quantity)];
    forall x | x in products ensures Decreased(products, lines)[x] == e[x] {
      assert Cart.QuantityOf(lines, x)
          == Cart.QuantityOf(pre, x) + (if x == line.productId then line.quantity else 0);
    }
  }

  /**
   * The walk `w` over `lines` went through its first `done` lines, each of
   * which its product's stock covered, taking each line's quantity off its
   * product and recording the lines as a snapshot; if it stopped, it stopped
   * at line `done`, whose quantity exceeds its product's stock.
   */
  ghost predicate StopsAtFirstShortLine(orderId: OrderId, products: Catalog, lines: seq<CartLine>, w: WalkState)
    requires Cart.InCatalog(lines, products.Keys)
  {
    var done := if w.failedAt.Some? then w.failedAt.value else |lines|;
    && done <= |lines|
    && (forall i :: 0 <= i < done ==> lines[i].quantity <= products[lines[i].productId].stock)
    && (w.failedAt.Some? ==> done < |lines| && products[lines[done].productId].stock < lines[done].quantity)
    && w.products == Decreased(products, lines[..done])
    && w.items == Snapshot(orderId, products, lines[..done])
  }

  /**
   * For a cart with one line per product, the walk stops exactly at the first
   * line whose quantity exceeds its product's stock; up to that line, it has
   * taken each line's quantity off its product and recorded the lines as a
   * snapshot.
   */
  lemma {:induction false} WalkOutcome(orderId: OrderId, products: Catalog, lines: seq<CartLine>)
    requires Cart.InCatalog(lines, products.Keys)
    requires Cart.DistinctProducts(lines)
    ensures StopsAtFirstShortLine(orderId, products, lines, Walk(orderId, products, lines))
    decreases |lines|
  {
    if lines == [] {
      assert Decreased(products, []) == products;
    } else {
      var pre := lines[..|lines| - 1];
      WalkOutcome(orderId, products, pre);
      if Walk(orderId, products, pre).failedAt.Some? {
        WalkAfterStop(orderId, products, lines);
      } else {
        WalkLastLine(orderId, products, lines);
      }
    }
  }

  /** The inductive step of WalkOutcome when the walk stopped before the last line. */
  lemma WalkAfterStop(orderId: OrderId, products: Catalog, lines: seq<CartLine>)
    requires Cart.InCatalog(lines, products.Keys)
    requires lines != []
    requires var pre := lines[..|lines| - 1];
      && StopsAtFirstShortLine(orderId, products, pre, Walk(orderId, products, pre))
      && Walk(orderId, products, pre).failedAt.Some?
    ensures StopsAtFirstShortLine(orderId, products, lines, Walk(orderId, products, lines))
  {
    var pre := lines[..|lines| - 1];
    var u := Walk(orderId, products, pre);
    var k := u.failedAt.value;
    assert pre[..k] == lines[..k];
    assert Walk(orderId, products, lines) == u;
  }

  /** The inductive step of WalkOutcome when the walk went through all but the last line. */
  lemma WalkLastLine(orderId: OrderId, products: Catalog, lines: seq<CartLine>)
    requires Cart.InCatalog(lines, products.Keys)
    requires Cart.DistinctProducts(lines)
    requires lines != []
    requires var pre := lines[..|lines| - 1];
      && StopsAtFirstShortLine(orderId, products, pre, Walk(orderId, products, pre))
      && Walk(orderId, products, pre).failedAt.None?
    ensures StopsAtFirstShortLine(orderId, products, lines, Walk(orderId, products, lines))
  {
    var n := |lines|;
    var pre := lines[..n - 1];
    var line := lines[n - 1];
    var u := Walk(orderId, products, pre);
    assert pre[..n - 1] == pre;
    assert line.productId !in Cart.ProductIds(pre);
    Cart.QuantityOfAbsent(pre, line.productId);
    var product := u.products[line.productId];
    assert product == products[line.productId];
    if product.stock >= line.quantity {
      WalkThroughLastLine(orderId, products, lines);
    } else {
      var w := Walk(orderId, products, lines);
      assert w == u.(failedAt := Some(n - 1));
    }
  }

  /** WalkLastLine when the stock covers the last line. */
  lemma WalkThroughLastLine(orderId: OrderId, products: Catalog, lines: seq<CartLine>)
    requires Cart.InCatalog(lines, products.Keys)
    requires lines != []
    requires var pre := lines[..|lines| - 1];
      var u := Walk(orderId, products, pre);
      && StopsAtFirstShortLine(orderId, products, pre, u)
      && u.failedAt.None?
      && u.products[lines[|lines| - 1].productId] == products[lines[|lines| - 1].productId]
      && lines[|lines| - 1].quantity <= products[lines[|lines| - 1].productId].stock
    ensures StopsAtFirstShortLine(orderId, products, lines, Walk(orderId, products, lines))
  {
    var u := Walk(orderId, products, lines[..|lines| - 1]);
    var line := lines[|lines| - 1];
    var product := products[line.productId];
    assert Walk(orderId, products, lines)
        == WalkState(u.products[line.productId := product.(stock := product.stock - line.quantity)],
                     u.items + [OrderItem(orderId, line.productId, line.quantity, product.price)],
                     None);
    ExtendThrough(orderId, products, lines, u);
  }

  /** One step of the walk that goes through the last line keeps the closed form. */
  lemma ExtendThrough(orderId: OrderId, products: Catalog, lines: seq<CartLine>, u: WalkState)
    requires Cart.InCatalog(lines, products.Keys)
    requires lines != []
    requires StopsAtFirstShortLine(orderId, products, lines[..|lines| - 1], u)
    requires u.failedAt.None?
    requires u.products[lines[|lines| - 1].productId] == products[lines[|lines| - 1].productId]
    requires lines[|lines| - 1].quantity <= products[lines[|lines| - 1].productId].stock
    ensures var line := lines[|lines| - 1];
      var product := products[line.productId];
      StopsAtFirstShortLine(orderId, products, lines,
        WalkState(u.products[line.productId := product.(stock := product.stock - line.quantity)],
                  u.items + [OrderItem(orderId, line.productId, line.quantity, product.price)],
                  None))
  {
    var n := |lines|;
    var pre := lines[..n - 1];
    var line := lines[n - 1];
    assert pre[..n - 1] == pre;
    assert lines[..n] == lines;
    forall i | 0 <= i < n ensures lines[i].quantity <= products[lines[i].productId].stock {
      if i < n - 1 {
        assert lines[i] == pre[i];
      }
    }
    DecreasedStep(products, lines);
  }

  /** The walk changes stock only: every product keeps its name and price. */
  lemma {:induction false} WalkKeepsNamesAndPrices(orderId: OrderId, products: Catalog, lines: seq<CartLine>)
    requires Cart.InCatalog(lines, products.Keys)
    ensures var w := Walk(orderId, products, lines);
      forall x :: x in products ==>
        w.products[x].name == products[x].name && w.products[x].price == products[x].price
    decreases |lines|
  {
    if lines != [] {
      WalkKeepsNamesAndPrices(orderId, products, lines[..|lines| - 1]);
    }
  }

  /**
   * Whatever the cart, the walk changes a product's stock only to a value of
   * at least zero: every decrement is preceded by a check that the stock
   * covers the quantity.
   */
  lemma {:induction false} WalkKeepsStockNonNegative(orderId: OrderId, products: Catalog, lines: seq<CartLine>)
    requires Cart.InCatalog(lines, products.Keys)
    ensures var w := Walk(orderId, products, lines);
      forall x :: x in products ==> w.products[x] == products[x] || w.products[x].stock >= 0
    decreases |lines|
  {
    if lines != [] {
      WalkKeepsStockNonNegative(orderId, products, lines[..|lines| - 1]);
    }
  }

  /**
   * For a cart with one line per product, the walk goes through every line
   * exactly when each line's quantity is covered by its product's stock.
   */
  lemma WalkSucceedsIffStocked(orderId: OrderId, products: Catalog, lines: seq<CartLine>)
    requires Cart.InCatalog(lines, products.Keys)
    requires Cart.DistinctProducts(lines)
    ensures Walk(orderId, products, lines).failedAt.None?
        <==> forall i :: 0 <= i < |lines| ==> lines[i].quantity <= products[lines[i].productId].stock
  {
    WalkOutcome(orderId, products, lines);
  }

  /**
   * A walk that went through every line of a cart with one line per
   * product: each ordered product has lost exactly its line's quantity and
   * its stock is at least zero, every other product is unchanged, and there
   * is one order item per line, carrying the line's product and quantity and
   * the product's price, whose sum is the order total.
   */
  lemma WalkSucceeded(orderId: OrderId, products: Catalog, lines: seq<CartLine>)
    requires Cart.InCatalog(lines, products.Keys)
    requires Cart.DistinctProducts(lines)
    requires Walk(orderId, products, lines).failedAt.None?
    ensures var w := Walk(orderId, products, lines);
      && (forall i :: 0 <= i < |lines| ==>
            var p := products[lines[i].productId];
            && w.products[lines[i].productId] == p.(stock := p.stock - lines[i].quantity)
            && w.products[lines[i].productId].stock >= 0)
      && (forall x :: x in products && x !in Cart.ProductIds(lines) ==> w.products[x] == products[x])
      && |w.items| == |lines|
      && (forall i :: 0 <= i < |lines| ==>
            w.items[i] == OrderItem(orderId, lines[i].productId, lines[i].quantity, products[lines[i].productId].price))
      && ItemsTotal(w.items) == Total(products, lines)
  {
    var w := Walk(orderId, products, lines);
    WalkOutcome(orderId, products, lines);
    assert lines[..|lines|] == lines;
    assert w.products == Decreased(products, lines);
    assert w.items == Snapshot(orderId, products, lines);
    DecreasedByLines(products, lines);
    SnapshotItems(orderId, products, lines);
    SnapshotTotal(orderId, products, lines);
  }

  /**
   * Taking the units of a cart with one line per product off the stocks
   * takes exactly each line's quantity off its product and leaves the other
   * products alone.
   */
  lemma DecreasedByLines(products: Catalog, lines: seq<CartLine>)
    requires Cart.InCatalog(lines, products.Keys)
    requires Cart.DistinctProducts(lines)
    ensures var d := Decreased(products, lines);
      && (forall i :: 0 <= i < |lines| ==>
            var p := products[lines[i].productId];
            d[lines[i].productId] == p.(stock := p.stock - lines[i].quantity))
      && (forall x :: x in products && x !in Cart.ProductIds(lines) ==> d[x] == products[x])
  {
    forall i | 0 <= i < |lines|
      ensures Cart.QuantityOf(lines, lines[i].productId) == lines[i].quantity
    {
      Cart.QuantityOfLine(lines, i);
    }
    forall x | x in products && x !in Cart.ProductIds(lines)
      ensures Cart.QuantityOf(lines, x) == 0
    {
      Cart.QuantityOfAbsent(lines, x);
    }
  }

  /**
   * A walk that stopped, over a cart with one line per product: it stopped
   * at the first line `k` whose quantity exceeds its product's stock; the
   * products of the lines before `k` have lost their quantities, every other
   * product is unchanged, and the order items recorded are those of the
   * lines before `k`.
   */
  lemma WalkFailed(orderId: OrderId, products: Catalog, lines: seq<CartLine>)
    requires Cart.InCatalog(lines, products.Keys)
    requires Cart.DistinctProducts(lines)
    requires Walk(orderId, products, lines).failedAt.Some?
    ensures var w := Walk(orderId, products, lines);
      var k := w.failedAt.value;
      && k < |lines|
      && products[lines[k].productId].stock < lines[k].quantity
      && (forall i :: 0 <= i < k ==> lines[i].quantity <= products[lines[i].productId].stock)
      && (forall i :: 0 <= i < k ==>
            var p := products[lines[i].productId];
            w.products[lines[i].productId] == p.(stock := p.stock - lines[i].quantity))
      && (forall x :: x in products && x !in Cart.ProductIds(lines[..k]) ==> w.products[x] == products[x])
      && |w.items| == k
      && (forall i :: 0 <= i < k ==>
            w.items[i] == OrderItem(orderId, lines[i].productId, lines[i].quantity, products[lines[i].productId].price))
  {
    var w := Walk(orderId, products, lines);
    var k := w.failedAt.value;
    WalkOutcome(orderId, products, lines);
    var done := lines[..k];
    assert forall i :: 0 <= i < k ==> done[i] == lines[i];
    assert Cart.DistinctProducts(done);
    assert w.products == Decreased(products, done);
    DecreasedByLines(products, done);
    SnapshotItems(orderId, products, done);
  }
}
