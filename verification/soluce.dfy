/**
 * The cleaned-up restaurant order store: a fixed menu, an in-place add that
 * only accepts food on the menu, an identity accessor and a filter that drops
 * every order of one customer.
 */
module Soluce {

  /** One order: who ordered and what. Duplicates are allowed. */
  datatype Order = Order(customer: string, food: string)

  /**
   * The caller's list object. `add_order` extends it in place, so every name
   * bound to the same object sees the new order; the other operations read it.
   */
  class OrderList {
    var items: seq<Order>

    constructor ()
      ensures items == []
    {
      items := [];
    }

    /** A fresh list object holding `s` (what a list comprehension yields). */
    constructor FromItems(s: seq<Order>)
      ensures items == s
    {
      items := s;
    }
  }

  /** The four foods that can be ordered, in the source's order. */
  const Menu: seq<string> := ["Pizza", "Burger", "Pasta", "Salad"]

  /** Whether `food` can be ordered. */
  function IsItemOnMenu(food: string): (b: bool)
    ensures b <==> food == "Pizza" || food == "Burger" || food == "Pasta" || food == "Salad"
  {
    food in Menu
  }

  /** Every order in `orders` is for food on the menu. */
  predicate AllOnMenu(orders: seq<Order>)
  {
    forall i :: 0 <= i < |orders| ==> IsItemOnMenu(orders[i].food)
  }

  /**
   * The contents the caller's list holds after `add_order(orders, customer, food)`:
   * one order longer, ending in the new order, when the food is on the menu,
   * and untouched otherwise.
   */
  function Added(orders: seq<Order>, customer: string, food: string): (r: seq<Order>)
    ensures IsItemOnMenu(food) ==> |r| == |orders| + 1 && r[|orders|] == Order(customer, food)
    ensures !IsItemOnMenu(food) ==> |r| == |orders|
    ensures |r| >= |orders| && r[..|orders|] == orders
    ensures AllOnMenu(orders) ==> AllOnMenu(r)
  {
    if food in Menu then orders + [Order(customer, food)] else orders
  }

  /**
   * `add_order`: appends to the caller's own list object when the food is on
   * the menu (the rejection message is not modelled) and hands back that same
   * object.
   */
  method AddOrder(orders: OrderList, customer: string, food: string) returns (r: OrderList)
    modifies orders
    ensures r == orders
    ensures orders.items == Added(old(orders.items), customer, food)
  {
    if food in Menu {
      orders.items := orders.items + [Order(customer, food)];
      return orders;
    }
    return orders;
  }

  /** `get_orders`: hands back the caller's list object itself, not a copy. */
  function GetOrders(orders: OrderList): (r: OrderList)
    ensures r == orders
  {
    orders
  }

  /** `s` can be obtained from `t` by deleting elements, keeping the rest in order. */
  predicate IsSubsequence(s: seq<Order>, t: seq<Order>)
    decreases |t|
  {
    s == [] || (t != [] && ((s[0] == t[0] && IsSubsequence(s[1..], t[1..])) || IsSubsequence(s, t[1..])))
  }

  /**
   * `remove_order`: a new list holding the orders whose customer differs from
   * `customer`, in their original order; the input is not touched.
   */
  function RemoveOrder(orders: seq<Order>, customer: string): (r: seq<Order>)
    ensures forall o :: o in r ==> o.customer != customer
    ensures forall o :: multiset(r)[o] == if o.customer == customer then 0 else multiset(orders)[o]
    ensures IsSubsequence(r, orders)
    ensures (forall o :: o in orders ==> o.customer != customer) ==> r == orders
  {
    if orders == [] then []
    else
      assert orders == [orders[0]] + orders[1..];
      var rest := RemoveOrder(orders[1..], customer);
      if orders[0].customer != customer then [orders[0]] + rest else rest
  }

  /** A subsequence holds no more copies of any order than the sequence it comes from. */
  lemma {:induction false} SubsequenceMultiset(s: seq<Order>, t: seq<Order>)
    requires IsSubsequence(s, t)
    ensures multiset(s) <= multiset(t)
  {
    if s == [] {
    } else if s[0] == t[0] && IsSubsequence(s[1..], t[1..]) {
      SubsequenceMultiset(s[1..], t[1..]);
      assert s == [s[0]] + s[1..];
      assert t == [t[0]] + t[1..];
    } else {
      SubsequenceMultiset(s, t[1..]);
      assert t == [t[0]] + t[1..];
    }
  }

  /**
   * The converse of RemoveOrder's contract: the only list that keeps, in
   * order, exactly the orders of other customers is the one RemoveOrder builds.
   */
  lemma {:induction false} RemoveOrderUnique(orders: seq<Order>, customer: string, r: seq<Order>)
    requires IsSubsequence(r, orders)
    requires forall o :: multiset(r)[o] == if o.customer == customer then 0 else multiset(orders)[o]
    ensures r == RemoveOrder(orders, customer)
  {
    if orders == [] {
      assert multiset(r) == multiset{};
    } else {
      var x, rest := orders[0], orders[1..];
      assert orders == [x] + rest;
      if x.customer == customer {
        if r != [] {
          assert multiset(r)[x] == 0;
          assert r[0] != x by { assert r[0] in multiset(r); }
        }
        assert IsSubsequence(r, rest);
        forall o ensures multiset(r)[o] == if o.customer == customer then 0 else multiset(rest)[o] {
          if o.customer != customer {
            assert o != x;
          }
        }
        RemoveOrderUnique(rest, customer, r);
      } else {
        assert multiset(orders)[x] == multiset(rest)[x] + 1;
        assert r != [] by { assert multiset(r)[x] > 0; }
        if r[0] == x && IsSubsequence(r[1..], rest) {
          assert r == [x] + r[1..];
          forall o ensures multiset(r[1..])[o] == if o.customer == customer then 0 else multiset(rest)[o] {
            assert multiset(r)[o] == multiset(r[1..])[o] + (if o == x then 1 else 0);
          }
          RemoveOrderUnique(rest, customer, r[1..]);
        } else {
          assert IsSubsequence(r, rest);
          SubsequenceMultiset(r, rest);
          assert false;
        }
      }
    }
  }

  /** Filtering a concatenation filters each part. */
  lemma {:induction false} RemoveOrderConcat(a: seq<Order>, b: seq<Order>, customer: string)
    ensures RemoveOrder(a + b, customer) == RemoveOrder(a, customer) + RemoveOrder(b, customer)
  {
    if a == [] {
      assert a + b == b;
    } else {
      assert (a + b)[0] == a[0];
      assert (a + b)[1..] == a[1..] + b;
      RemoveOrderConcat(a[1..], b, customer);
    }
  }

  /** One call a script makes on its list, with the result rebound to the list. */
  datatype Request = Add(customer: string, food: string) | Remove(customer: string)

  /** The list obtained from an empty one by the requests in order. */
  function Replay(requests: seq<Request>): seq<Order>
    decreases |requests|
  {
    if requests == [] then []
    else
      var before := Replay(requests[..|requests| - 1]);
      match requests[|requests| - 1]
      case Add(c, f) => Added(before, c, f)
      case Remove(c) => RemoveOrder(before, c)
  }

  /** A list built from empty by adds and removes only ever holds food on the menu. */
  lemma {:induction false} ReplayOnMenu(requests: seq<Request>)
    ensures AllOnMenu(Replay(requests))
  {
    if requests != [] {
      var before := Replay(requests[..|requests| - 1]);
      ReplayOnMenu(requests[..|requests| - 1]);
      match requests[|requests| - 1]
      case Add(c, f) =>
      case Remove(c) =>
        var r := RemoveOrder(before, c);
        forall i | 0 <= i < |r| ensures IsItemOnMenu(r[i].food) {
          assert r[i] in multiset(r);
          assert r[i] in before;
        }
    }
  }

  /**
   * The scripted `main` as written: three adds (Sushi is rejected), then a
   * `remove_order` whose result is discarded, so the list printed "after
   * removal" still holds Alice's order.
   */
  method Demo() returns (all: seq<Order>, afterRemoval: seq<Order>)
    ensures all == [Order("Alice", "Pizza"), Order("Bob", "Burger")]
    ensures afterRemoval == all
    ensures Order("Alice", "Pizza") in afterRemoval
  {
    var foodByCustomer := new OrderList();
    foodByCustomer := AddOrder(foodByCustomer, "Alice", "Pizza");
    assert foodByCustomer.items == [Order("Alice", "Pizza")];
    foodByCustomer := AddOrder(foodByCustomer, "Bob", "Burger");
    assert foodByCustomer.items == [Order("Alice", "Pizza"), Order("Bob", "Burger")];
    foodByCustomer := AddOrder(foodByCustomer, "Charlie", "Sushi");
    all := GetOrders(foodByCustomer).items;
    var discarded := RemoveOrder(foodByCustomer.items, "Alice");
    afterRemoval := GetOrders(foodByCustomer).items;
  }

  /** The scripted `main` with the result of `remove_order` rebound to the list. */
  method DemoRebound() returns (all: seq<Order>, afterRemoval: seq<Order>)
    ensures all == [Order("Alice", "Pizza"), Order("Bob", "Burger")]
    ensures afterRemoval == [Order("Bob", "Burger")]
  {
    var foodByCustomer := new OrderList();
    foodByCustomer := AddOrder(foodByCustomer, "Alice", "Pizza");
    assert foodByCustomer.items == [Order("Alice", "Pizza")];
    foodByCustomer := AddOrder(foodByCustomer, "Bob", "Burger");
    assert foodByCustomer.items == [Order("Alice", "Pizza"), Order("Bob", "Burger")];
    foodByCustomer := AddOrder(foodByCustomer, "Charlie", "Sushi");
    all := GetOrders(foodByCustomer).items;
    foodByCustomer := new OrderList.FromItems(RemoveOrder(foodByCustomer.items, "Alice"));
    afterRemoval := GetOrders(foodByCustomer).items;
  }
}
