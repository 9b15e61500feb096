/**
 * listOrders: the caller's rows of the orders table, ordered by id
 * descending (`where user_id = ...`, `orderBy('id', 'desc')`).
 */
module OrderList {
  import opened Tables

  /** The ids never increase along `s`. */
  predicate NonIncreasingIds(s: seq<Order>)
  {
    forall i, j :: 0 <= i < j < |s| ==> s[i].id >= s[j].id
  }

  /** No two rows of `s` share an id (the orders table's primary key). */
  predicate UniqueIds(s: seq<Order>)
  {
    forall i, j :: 0 <= i < j < |s| ==> s[i].id != s[j].id
  }

  /** The ids strictly decrease along `s`. */
  predicate DescendingIds(s: seq<Order>)
  {
    forall i, j :: 0 <= i < j < |s| ==> s[i].id > s[j].id
  }

  /** The rows of `orders` whose user is `user`, in table order. */
  function OwnedBy(orders: seq<Order>, user: UserId): (r: seq<Order>)
    ensures forall o :: o in r <==> o in orders && o.userId == user
    ensures UniqueIds(orders) ==> UniqueIds(r)
  {
    if orders == [] then []
    else
      var rest := OwnedBy(orders[1..], user);
      assert forall o :: o in orders[1..] ==> o in orders;
      assert UniqueIds(orders) ==> forall o :: o in rest ==> o.id != orders[0].id by {
        if UniqueIds(orders) {
          forall o | o in rest ensures o.id != orders[0].id {
            var k :| 0 <= k < |orders[1..]| && orders[1..][k] == o;
            assert orders[k + 1] == o;
          }
        }
      }
      if orders[0].userId == user then [orders[0]] + rest else rest
  }

  /** The filter keeps every row of `user` as often as the table holds it. */
  lemma {:induction false} OwnedByCounts(orders: seq<Order>, user: UserId)
    ensures forall o: Order :: o.userId == user ==> multiset(OwnedBy(orders, user))[o] == multiset(orders)[o]
  {
    if orders != [] {
      OwnedByCounts(orders[1..], user);
      assert orders == [orders[0]] + orders[1..];
    }
  }

  /** Insert `o` into `s`, before the first row with a smaller id. */
  function Insert(o: Order, s: seq<Order>): (r: seq<Order>)
    ensures multiset(r) == multiset(s) + multiset{o}
  {
    if s == [] then [o]
    else if o.id >= s[0].id then [o] + s
    else
      assert s == [s[0]] + s[1..];
      [s[0]] + Insert(o, s[1..])
  }

  /** Every row of `Insert(o, s)` is `o` or a row of `s`. */
  lemma InsertMembers(o: Order, s: seq<Order>)
    ensures forall x :: x in Insert(o, s) ==> x == o || x in s
  {
    forall x | x in Insert(o, s) ensures x == o || x in s {
      assert x in multiset(Insert(o, s));
    }
  }

  /** Inserting into a sequence ordered by id descending keeps it ordered. */
  lemma {:induction false} InsertOrdered(o: Order, s: seq<Order>)
    requires NonIncreasingIds(s)
    ensures NonIncreasingIds(Insert(o, s))
  {
    if s != [] && o.id < s[0].id {
      var rest := Insert(o, s[1..]);
      InsertOrdered(o, s[1..]);
      InsertMembers(o, s[1..]);
      forall x | x in rest ensures x.id <= s[0].id {
        if x != o {
          var k :| 0 <= k < |s[1..]| && s[1..][k] == x;
          assert s[k + 1] == x;
        }
      }
      PrependOrdered(s[0], rest);
    }
  }

  /** A row whose id bounds every id of an ordered sequence can go in front of it. */
  lemma PrependOrdered(x: Order, t: seq<Order>)
    requires NonIncreasingIds(t)
    requires forall y :: y in t ==> y.id <= x.id
    ensures NonIncreasingIds([x] + t)
  {
    var r := [x] + t;
    forall i, j | 0 <= i < j < |r| ensures r[i].id >= r[j].id {
      assert r[j] == t[j - 1];
      if i > 0 {
        assert r[i] == t[i - 1];
      }
    }
  }

  /** Inserting a row whose id is new keeps the ids unique. */
  lemma {:induction false} InsertUnique(o: Order, s: seq<Order>)
    requires UniqueIds(s)
    requires forall x :: x in s ==> x.id != o.id
    ensures UniqueIds(Insert(o, s))
  {
    if s != [] && o.id < s[0].id {
      var rest := Insert(o, s[1..]);
      assert forall x :: x in s[1..] ==> x in s;
      InsertUnique(o, s[1..]);
      InsertMembers(o, s[1..]);
      forall x | x in rest ensures x.id != s[0].id {
        if x != o {
          var k :| 0 <= k < |s[1..]| && s[1..][k] == x;
          assert s[k + 1] == x;
        }
      }
      var r := [s[0]] + rest;
      forall i, j | 0 <= i < j < |r| ensures r[i].id != r[j].id {
        if i == 0 {
          assert r[j] == rest[j - 1];
          assert r[j] in rest;
        } else {
          assert r[i] == rest[i - 1] && r[j] == rest[j - 1];
        }
      }
    } else if s != [] {
      var r := [o] + s;
      forall i, j | 0 <= i < j < |r| ensures r[i].id != r[j].id {
        assert r[j] == s[j - 1];
        if i > 0 {
          assert r[i] == s[i - 1];
        } else {
          assert r[j] in s;
        }
      }
    }
  }

  /** Insertion sort of `s` by id, descending. */
  function SortByIdDesc(s: seq<Order>): (r: seq<Order>)
    ensures multiset(r) == multiset(s)
  {
    if s == [] then []
    else
      assert s == [s[0]] + s[1..];
      Insert(s[0], SortByIdDesc(s[1..]))
  }

  /** The sort orders by id descending and keeps unique ids unique. */
  lemma {:induction false} SortOrdered(s: seq<Order>)
    ensures NonIncreasingIds(SortByIdDesc(s))
    ensures UniqueIds(s) ==> UniqueIds(SortByIdDesc(s))
  {
    if s != [] {
      var rest := SortByIdDesc(s[1..]);
      SortOrdered(s[1..]);
      InsertOrdered(s[0], rest);
      if UniqueIds(s) {
        forall x | x in rest ensures x.id != s[0].id {
          assert x in multiset(rest);
          var k :| 0 <= k < |s[1..]| && s[1..][k] == x;
          assert s[k + 1] == x;
        }
        InsertUnique(s[0], rest);
      }
    }
  }

  /**
   * The orders listOrders returns for `user`: exactly the rows of `user`,
   * each as often as in the table, and, since order ids are unique, in
   * strictly descending id order.
   */
  function ListOrders(orders: seq<Order>, user: UserId): (r: seq<Order>)
    ensures forall o :: o in r <==> o in orders && o.userId == user
    ensures forall o: Order :: o.userId == user ==> multiset(r)[o] == multiset(orders)[o]
    ensures multiset(r) == multiset(OwnedBy(orders, user))
    ensures UniqueIds(orders) ==> DescendingIds(r)
  {
    var r := SortByIdDesc(OwnedBy(orders, user));
    assert forall o :: o in r <==> o in multiset(r);
    SortOrdered(OwnedBy(orders, user));
    OwnedByCounts(orders, user);
    r
  }
}
