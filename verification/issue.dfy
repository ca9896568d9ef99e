/**
 * The deliberately messy version of the restaurant order store. Its orders
 * are dictionaries with the same two keys as the cleaned-up version's, so it
 * shares Soluce's Order and list object; its menu and operations are its own.
 */
module Issue {
  // examples/issue.py builds its orders as dictionaries with the keys
  // "customer" and "food" and keeps them in a plain list, just as the
  // cleaned-up version does, so the two share one Order type and one list
  // object; the menu and every operation below are this file's own.
  import opened Soluce

  /** The menu, written out again. */
  const Mn: seq<string> := ["Pizza", "Burger", "Pasta", "Salad"]

  /** Both menus accept exactly the same foods. */
  lemma MenusAgree(f: string)
    ensures f in Mn <==> IsItemOnMenu(f)
  {
  }

  /**
   * `add`: appends to the caller's own list object when `f` is on the menu
   * (the rejection message is not modelled) and returns that same object;
   * it leaves the list exactly as `add_order` does.
   */
  method Add(ord: OrderList, c: string, f: string) returns (r: OrderList)
    modifies ord
    ensures r == ord
    // The first two clauses state the new contents in terms of this file's
    // own menu; the third ties them to the cleaned-up `add_order`.
    ensures f in Mn ==> ord.items == old(ord.items) + [Order(c, f)]
    ensures f !in Mn ==> ord.items == old(ord.items)
    ensures ord.items == Added(old(ord.items), c, f)
  {
    if f in Mn {
      ord.items := ord.items + [Order(c, f)];
      return ord;
    } else {
      return ord;
    }
  }

  /** `get`: the caller's list object itself. */
  function Get(ord: OrderList): (r: OrderList)
    ensures r == ord
  {
    ord
  }

  /**
   * `REMOVE`: the comprehension builds a fresh list, appending each order
   * whose customer is not `cus` as it walks the input from the front.
   */
  function Remove(ord: seq<Order>, cus: string): (r: seq<Order>)
    ensures |r| <= |ord|
    ensures forall o :: o in r ==> o in ord && o.customer != cus
    decreases |ord|
  {
    if ord == [] then []
    else
      var init, last := ord[..|ord| - 1], ord[|ord| - 1];
      assert forall o :: o in init ==> o in ord;
      var kept := Remove(init, cus);
      if last.customer != cus then kept + [last] else kept
  }

  /** `REMOVE` and `remove_order` return the same list on every input. */
  lemma {:induction false} RemoveAgrees(ord: seq<Order>, cus: string)
    ensures Remove(ord, cus) == RemoveOrder(ord, cus)
  {
    if ord != [] {
      var init, last := ord[..|ord| - 1], ord[|ord| - 1];
      assert ord == init + [last];
      RemoveAgrees(init, cus);
      RemoveOrderConcat(init, [last], cus);
      assert RemoveOrder([last], cus) == if last.customer != cus then [last] else [];
    }
  }

  /**
   * The scripted `main`: three adds (Sushi is rejected), then the result of
   * `REMOVE` is rebound, so only Bob's order is left.
   */
  method Demo() returns (all: seq<Order>, afterRemoval: seq<Order>)
    ensures all == [Order("Alice", "Pizza"), Order("Bob", "Burger")]
    ensures afterRemoval == [Order("Bob", "Burger")]
  {
    var orders := new OrderList();
    orders := Add(orders, "Alice", "Pizza");
    assert orders.items == [Order("Alice", "Pizza")];
    orders := Add(orders, "Bob", "Burger");
    assert orders.items == [Order("Alice", "Pizza"), Order("Bob", "Burger")];
    orders := Add(orders, "Charlie", "Sushi");
    all := Get(orders).items;
    RemoveAgrees(orders.items, "Alice");
    orders := new OrderList.FromItems(Remove(orders.items, "Alice"));
    afterRemoval := Get(orders).items;
  }
}
