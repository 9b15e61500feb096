/**
 * The lines of one cart and the changes the cart endpoints make to them.
 *
 * A cart is the sequence of its cart_items rows. Its meaning is given by two
 * views: QuantityOf, the number of units of a product in the cart, and
 * Without, the lines of all other products in their order. Every change is
 * characterised through these views.
 */
module Cart {
  import opened Tables

  /** The product ids that have a line in the cart. */
  function ProductIds(lines: seq<CartLine>): set<ProductId>
  {
    set i | 0 <= i < |lines| :: lines[i].productId
  }

  /** No two lines of the cart are for the same product. */
  predicate DistinctProducts(lines: seq<CartLine>)
  {
    forall i, j :: 0 <= i < j < |lines| ==> lines[i].productId != lines[j].productId
  }

  /** The cart invariant: one line per product, every quantity at least 1. */
  predicate WellFormed(lines: seq<CartLine>)
  {
    && DistinctProducts(lines)
    && forall i :: 0 <= i < |lines| ==> lines[i].quantity >= 1
  }

  /** Every line of the cart refers to a product in `ids`. */
  predicate InCatalog(lines: seq<CartLine>, ids: set<ProductId>)
  {
    forall i :: 0 <= i < |lines| ==> lines[i].productId in ids
  }

  /** The number of units of product `p` in the cart, over all its lines. */
  function QuantityOf(lines: seq<CartLine>, p: ProductId): int
    decreases |lines|
  {
    if lines == [] then 0
    else
      var last := lines[|lines| - 1];
      QuantityOf(lines[..|lines| - 1], p) + (if last.productId == p then last.quantity else 0)
  }

  /** The lines for products other than `p`, in cart order. */
  function Without(lines: seq<CartLine>, p: ProductId): seq<CartLine>
    decreases |lines|
  {
    if lines == [] then []
    else
      var last := lines[|lines| - 1];
      Without(lines[..|lines| - 1], p) + (if last.productId == p then [] else [last])
  }

  /** The line the cart_items query `where product_id = p ... first()` finds. */
  function Find(lines: seq<CartLine>, p: ProductId): (r: Option<nat>)
    ensures r.Some? ==> r.value < |lines| && lines[r.value].productId == p
    ensures r.Some? ==> forall j :: 0 <= j < r.value ==> lines[j].productId != p
    ensures r.None? ==> forall j :: 0 <= j < |lines| ==> lines[j].productId != p
  {
    if lines == [] then None
    else if lines[0].productId == p then Some(0)
    else
      match Find(lines[1..], p)
      case None => None
      case Some(i) => Some(i + 1)
  }

  /** addToCart: add `q` units to the line of `p`, or append a new line. */
  function Add(lines: seq<CartLine>, p: ProductId, q: int): (r: seq<CartLine>)
    ensures |lines| <= |r| <= |lines| + 1
    ensures forall i :: 0 <= i < |lines| ==> r[i].productId == lines[i].productId
    ensures forall i :: 0 <= i < |lines| && lines[i].productId != p ==> r[i] == lines[i]
    ensures |r| == |lines| + 1 ==> r[|lines|] == CartLine(p, q)
  {
    match Find(lines, p)
    case Some(i) => lines[i := lines[i].(quantity := lines[i].quantity + q)]
    case None => lines + [CartLine(p, q)]
  }

  /** removeItem: take one unit off the line of `p`, deleting a line that holds one unit. */
  function RemoveOne(lines: seq<CartLine>, p: ProductId): (r: seq<CartLine>)
    ensures |lines| - 1 <= |r| <= |lines|
    ensures forall x :: x in r && x.productId != p ==> x in lines
    ensures |r| == |lines| ==> forall i :: 0 <= i < |lines| ==> r[i].productId == lines[i].productId
    ensures |r| == |lines| ==> forall i :: 0 <= i < |lines| && lines[i].productId != p ==> r[i] == lines[i]
  {
    match Find(lines, p)
    case Some(i) =>
      if lines[i].quantity > 1 then lines[i := lines[i].(quantity := lines[i].quantity - 1)]
      else lines[..i] + lines[i + 1..]
    case None => lines
  }

  /** update: set the quantity of the line of `p` to `q`. */
  function SetQuantity(lines: seq<CartLine>, p: ProductId, q: int): (r: seq<CartLine>)
    ensures |r| == |lines|
    ensures forall i :: 0 <= i < |lines| ==> r[i].productId == lines[i].productId
    ensures forall i :: 0 <= i < |lines| && lines[i].productId != p ==> r[i] == lines[i]
  {
    match Find(lines, p)
    case Some(i) => lines[i := lines[i].(quantity := q)]
    case None => lines
  }

  // ---------------------------------------------------------------------------
  // The two views over concatenation and single positions

  lemma {:induction false} QuantityOfConcat(a: seq<CartLine>, b: seq<CartLine>, p: ProductId)
    ensures QuantityOf(a + b, p) == QuantityOf(a, p) + QuantityOf(b, p)
    decreases |b|
  {
    if b == [] {
      assert a + b == a;
    } else {
      QuantityOfConcat(a, b[..|b| - 1], p);
      assert (a + b)[..|a + b| - 1] == a + b[..|b| - 1];
    }
  }

  lemma {:induction false} WithoutConcat(a: seq<CartLine>, b: seq<CartLine>, p: ProductId)
    ensures Without(a + b, p) == Without(a, p) + Without(b, p)
    decreases |b|
  {
    if b == [] {
      assert a + b == a;
    } else {
      WithoutConcat(a, b[..|b| - 1], p);
      assert (a + b)[..|a + b| - 1] == a + b[..|b| - 1];
    }
  }

  /** Both views of a cart split around its line `i`. */
  lemma SplitAt(lines: seq<CartLine>, i: nat, p: ProductId)
    requires i < |lines|
    ensures QuantityOf(lines, p)
         == QuantityOf(lines[..i], p)
            + (if lines[i].productId == p then lines[i].quantity else 0)
            + QuantityOf(lines[i + 1..], p)
    ensures Without(lines, p)
         == Without(lines[..i], p)
            + (if lines[i].productId == p then [] else [lines[i]])
            + Without(lines[i + 1..], p)
  {
    assert lines == lines[..i] + [lines[i]] + lines[i + 1..];
    QuantityOfConcat(lines[..i] + [lines[i]], lines[i + 1..], p);
    QuantityOfConcat(lines[..i], [lines[i]], p);
    WithoutConcat(lines[..i] + [lines[i]], lines[i + 1..], p);
    WithoutConcat(lines[..i], [lines[i]], p);
    assert [lines[i]][..0] == [];
  }

  /** A product without a line holds no units. */
  lemma {:induction false} QuantityOfAbsent(lines: seq<CartLine>, p: ProductId)
    requires p !in ProductIds(lines)
    ensures QuantityOf(lines, p) == 0
    decreases |lines|
  {
    if lines != [] {
      var pre := lines[..|lines| - 1];
      assert lines[|lines| - 1].productId in ProductIds(lines);
      assert ProductIds(pre) <= ProductIds(lines) by {
        forall x | x in ProductIds(pre) ensures x in ProductIds(lines) {
          var k :| 0 <= k < |pre| && pre[k].productId == x;
          assert lines[k].productId == x;
        }
      }
      QuantityOfAbsent(pre, p);
    }
  }

  /** A product without a line is not removed from the other lines. */
  lemma {:induction false} WithoutAbsent(lines: seq<CartLine>, p: ProductId)
    requires p !in ProductIds(lines)
    ensures Without(lines, p) == lines
    decreases |lines|
  {
    if lines != [] {
      var pre := lines[..|lines| - 1];
      assert lines[|lines| - 1].productId in ProductIds(lines);
      assert ProductIds(pre) <= ProductIds(lines) by {
        forall x | x in ProductIds(pre) ensures x in ProductIds(lines) {
          var k :| 0 <= k < |pre| && pre[k].productId == x;
          assert lines[k].productId == x;
        }
      }
      WithoutAbsent(pre, p);
      assert pre + [lines[|lines| - 1]] == lines;
    }
  }

  /** In a cart with one line per product, the units of a product are those of its line. */
  lemma QuantityOfLine(lines: seq<CartLine>, i: nat)
    requires DistinctProducts(lines)
    requires i < |lines|
    ensures QuantityOf(lines, lines[i].productId) == lines[i].quantity
  {
    var p := lines[i].productId;
    SplitAt(lines, i, p);
    assert p !in ProductIds(lines[..i]);
    var tail := lines[i + 1..];
    assert p !in ProductIds(tail) by {
      forall k | 0 <= k < |tail| ensures tail[k].productId != p {
        assert tail[k] == lines[i + 1 + k];
      }
    }
    QuantityOfAbsent(lines[..i], p);
    QuantityOfAbsent(lines[i + 1..], p);
  }

  /** Replacing line `i` by a line for the same product changes only that product's units. */
  lemma ReplaceLine(lines: seq<CartLine>, i: nat, q: int)
    requires i < |lines|
    ensures var r := lines[i := lines[i].(quantity := q)];
      && (forall x :: QuantityOf(r, x)
                      == QuantityOf(lines, x) + (if x == lines[i].productId then q - lines[i].quantity else 0))
      && Without(r, lines[i].productId) == Without(lines, lines[i].productId)
      && ProductIds(r) == ProductIds(lines)
  {
    var r := lines[i := lines[i].(quantity := q)];
    assert r[..i] == lines[..i];
    assert r[i + 1..] == lines[i + 1..];
    forall x ensures QuantityOf(r, x)
                     == QuantityOf(lines, x) + (if x == lines[i].productId then q - lines[i].quantity else 0)
    {
      SplitAt(lines, i, x);
      SplitAt(r, i, x);
    }
    SplitAt(lines, i, lines[i].productId);
    SplitAt(r, i, lines[i].productId);
    assert ProductIds(r) == ProductIds(lines) by {
      forall x ensures x in ProductIds(r) <==> x in ProductIds(lines) {
        if x in ProductIds(r) {
          var k :| 0 <= k < |r| && r[k].productId == x;
          assert lines[k].productId == x;
        }
        if x in ProductIds(lines) {
          var k :| 0 <= k < |lines| && lines[k].productId == x;
          assert r[k].productId == x;
        }
      }
    }
  }

  /** The product ids of a cart split around its line `i`. */
  lemma ProductIdsAround(lines: seq<CartLine>, i: nat)
    requires DistinctProducts(lines)
    requires i < |lines|
    ensures ProductIds(lines[..i] + lines[i + 1..]) == ProductIds(lines) - {lines[i].productId}
  {
    var r := lines[..i] + lines[i + 1..];
    forall x ensures x in ProductIds(r) <==> x in ProductIds(lines) - {lines[i].productId} {
      if x in ProductIds(r) {
        var k :| 0 <= k < |r| && r[k].productId == x;
        var j := if k < i then k else k + 1;
        assert r[k] == lines[j];
        assert j != i;
      }
      if x in ProductIds(lines) - {lines[i].productId} {
        var k :| 0 <= k < |lines| && lines[k].productId == x;
        assert k != i;
        if k < i {
          assert r[k] == lines[k];
        } else {
          assert r[k - 1] == lines[k];
        }
      }
    }
  }

  // ---------------------------------------------------------------------------
  // What each cart endpoint does to the cart

  /**
   * addToCart adds exactly `q` units of `p` and leaves every other line as it
   * was; it adds a new line exactly when `p` had none, and keeps the cart
   * invariant when `q` passes the `min:1` validator.
   */
  lemma AddEffect(lines: seq<CartLine>, p: ProductId, q: int)
    ensures var r := Add(lines, p, q);
      && (forall x :: QuantityOf(r, x) == QuantityOf(lines, x) + (if x == p then q else 0))
      && Without(r, p) == Without(lines, p)
      && ProductIds(r) == ProductIds(lines) + {p}
      && |r| == (if p in ProductIds(lines) then |lines| else |lines| + 1)
      && (WellFormed(lines) && q >= 1 ==> WellFormed(r))
  {
    var r := Add(lines, p, q);
    match Find(lines, p)
    case Some(i) =>
      ReplaceLine(lines, i, lines[i].quantity + q);
    case None =>
      assert p !in ProductIds(lines);
      forall x ensures QuantityOf(r, x) == QuantityOf(lines, x) + (if x == p then q else 0) {
        QuantityOfConcat(lines, [CartLine(p, q)], x);
        assert [CartLine(p, q)][..0] == [];
      }
      WithoutConcat(lines, [CartLine(p, q)], p);
      assert [CartLine(p, q)][..0] == [];
      assert ProductIds(r) == ProductIds(lines) + {p} by {
        forall x ensures x in ProductIds(r) <==> x in ProductIds(lines) + {p} {
          if x in ProductIds(r) {
            var k :| 0 <= k < |r| && r[k].productId == x;
            if k < |lines| { assert lines[k].productId == x; }
          }
          if x in ProductIds(lines) {
            var k :| 0 <= k < |lines| && lines[k].productId == x;
            assert r[k].productId == x;
          }
          if x == p {
            assert r[|lines|].productId == p;
          }
        }
      }
  }

  /** Deleting line `i` removes exactly that line's units and product id. */
  lemma DeleteLine(lines: seq<CartLine>, i: nat)
    requires WellFormed(lines)
    requires i < |lines|
    ensures var r := lines[..i] + lines[i + 1..];
      && (forall x :: QuantityOf(r, x)
                      == QuantityOf(lines, x) - (if x == lines[i].productId then lines[i].quantity else 0))
      && Without(r, lines[i].productId) == Without(lines, lines[i].productId)
      && ProductIds(r) == ProductIds(lines) - {lines[i].productId}
      && WellFormed(r)
  {
    var r := lines[..i] + lines[i + 1..];
    forall x ensures QuantityOf(r, x)
                     == QuantityOf(lines, x) - (if x == lines[i].productId then lines[i].quantity else 0)
    {
      SplitAt(lines, i, x);
      QuantityOfConcat(lines[..i], lines[i + 1..], x);
    }
    SplitAt(lines, i, lines[i].productId);
    WithoutConcat(lines[..i], lines[i + 1..], lines[i].productId);
    ProductIdsAround(lines, i);
    forall a, b | 0 <= a < b < |r| ensures r[a].productId != r[b].productId {
      var a' := if a < i then a else a + 1;
      var b' := if b < i then b else b + 1;
      assert r[a] == lines[a'] && r[b] == lines[b'];
    }
    forall a | 0 <= a < |r| ensures r[a].quantity >= 1 {
      var a' := if a < i then a else a + 1;
      assert r[a] == lines[a'];
    }
  }

  /**
   * removeItem takes exactly one unit of `p` off the cart and leaves every
   * other line as it was; the line is deleted exactly when it held one unit.
   */
  lemma RemoveOneEffect(lines: seq<CartLine>, p: ProductId)
    requires WellFormed(lines)
    requires p in ProductIds(lines)
    ensures var r := RemoveOne(lines, p);
      && (forall x :: QuantityOf(r, x) == QuantityOf(lines, x) - (if x == p then 1 else 0))
      && Without(r, p) == Without(lines, p)
      && WellFormed(r)
      && (QuantityOf(lines, p) > 1 ==> |r| == |lines| && ProductIds(r) == ProductIds(lines))
      && (QuantityOf(lines, p) == 1 ==> |r| == |lines| - 1 && ProductIds(r) == ProductIds(lines) - {p})
  {
    assert Find(lines, p).Some?;
    var i := Find(lines, p).value;
    QuantityOfLine(lines, i);
    if lines[i].quantity > 1 {
      ReplaceLine(lines, i, lines[i].quantity - 1);
    } else {
      DeleteLine(lines, i);
    }
  }

  /**
   * update sets the units of `p` to exactly `q` and leaves every other line
   * as it was; no line is added or deleted.
   */
  lemma SetQuantityEffect(lines: seq<CartLine>, p: ProductId, q: int)
    requires WellFormed(lines)
    requires p in ProductIds(lines)
    ensures var r := SetQuantity(lines, p, q);
      && QuantityOf(r, p) == q
      && (forall x :: x != p ==> QuantityOf(r, x) == QuantityOf(lines, x))
      && Without(r, p) == Without(lines, p)
      && |r| == |lines| && ProductIds(r) == ProductIds(lines)
      && (q >= 1 ==> WellFormed(r))
  {
    assert Find(lines, p).Some?;
    var i := Find(lines, p).value;
    QuantityOfLine(lines, i);
    ReplaceLine(lines, i, q);
  }
}
