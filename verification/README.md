# Restaurant order store, modelled in Dafny

The repository teaches Python style with a toy restaurant order store that
exists twice: a cleaned-up version (`examples/soluce.py`, tested by
`examples/test_soluce.py`) and a deliberately messy one (`examples/issue.py`).
Both have a fixed menu of four foods (Pizza, Burger, Pasta, Salad) and three
operations on a list of orders, each order a customer and a food:

- **add** appends an order to the caller's list *in place* when its food is on
  the menu, and returns that same list object; otherwise it prints a message
  and returns the list untouched;
- **get** returns the list object it is given;
- **remove** builds a *new* list without the orders of one customer, keeping
  the others in their original order, and leaves its input alone.

Each file ends with a scripted `main` that adds three orders (the third,
Sushi, is rejected), shows the list, calls remove for Alice and shows the list
again. `examples/issue.py` rebinds the result of remove, while
`examples/soluce.py` discards it, so its second list still holds Alice's order
(see "## Findings").

Two modules mirror the two files:

- `soluce.dfy`, module `Soluce`: the `Order` datatype; the Python list object
  as class `OrderList` with one field `items: seq<Order>`; the menu, its
  membership test, `AddOrder` (a method that `modifies` the list object and
  returns the same reference), `GetOrders`, `RemoveOrder` (a pure function on
  the list's contents) and the scripted `main`, both as written and corrected.
  `Added` is the contents the list holds after an add; `Replay` folds a script
  of adds and removes, each result rebound, starting from an empty list.
- `issue.dfy`, module `Issue`: the messy file's own menu `Mn`, `Add`, `Get`,
  `Remove` and `main`. Its orders are dictionaries with the same two keys, so it
  reuses `Soluce.Order` and `Soluce.OrderList`. `Remove` is built the way a
  comprehension builds its result, appending at the end while walking the
  input; `RemoveOrder` is built from the front. A lemma proves that the two
  return the same list on every input.

The specification of `remove_order` ("exactly the orders of other customers,
in their original order") is stated as two facts. The result is a subsequence
of the input. Each order occurs in it as often as in the input, or not at all
when it belongs to the removed customer. `RemoveOrderUnique` proves that these
two facts determine the list, so together they are a complete specification.

`remove_order` is annotated `-> None` in `examples/soluce.py:21`, but its body
returns the filtered list. The model follows the body.

## Model

| member | source | states |
|---|---|---|
| `Soluce.IsItemOnMenu` | examples/soluce.py:25-27 | true exactly for "Pizza", "Burger", "Pasta" and "Salad", the four entries of the menu at examples/soluce.py:7 |
| `Soluce.Added` | examples/soluce.py:9-15 | with food on the menu, the list grows by one and ends in `{customer, food}`; otherwise its length is unchanged; either way the old orders are a prefix of the result, and a list whose foods are all on the menu keeps that property |
| `Soluce.AddOrder` | examples/soluce.py:9-15 | changes the caller's own list object to `Added` of its old contents and returns that same object, so the argument and the result are one list |
| `Soluce.GetOrders` | examples/soluce.py:17-19 | returns the very list object it is given: an alias, not a copy |
| `Soluce.RemoveOrder` | examples/soluce.py:21-23 | no order in the result has the given customer; every other order occurs as often as in the input; the result is a subsequence of the input, so the relative order is kept; with no order of that customer, the result equals the input |
| `Soluce.RemoveOrderUnique` | examples/soluce.py:23 | conversely, any subsequence of the input with those per-order counts is `RemoveOrder`'s result |
| `Soluce.RemoveOrderConcat` | examples/soluce.py:23 | filtering a concatenation is the concatenation of the filtered parts |
| `Soluce.ReplayOnMenu` | examples/soluce.py:9-23 | a list built from empty by any script of adds and rebound removes holds only food on the menu |
| `Soluce.Demo` | examples/soluce.py:30-40 | as written, `main` shows Alice's and Bob's orders (Sushi rejected) and, because the result of `remove_order` is discarded, shows the same two orders "after removal" |
| `Soluce.DemoRebound` | examples/soluce.py:30-40 | with the result of `remove_order` rebound, the list after removal is Bob's order alone |
| `Issue.MenusAgree` | examples/issue.py:1-2 | `mn` accepts exactly the foods that `MENU` in examples/soluce.py accepts |
| `Issue.Add` | examples/issue.py:5-15 | with `f` on the menu, appends `{c, f}` to the caller's list object in place, otherwise leaves it unchanged; returns that same object; the new contents equal those `add_order` leaves |
| `Issue.Get` | examples/issue.py:16 | returns the very list object it is given |
| `Issue.Remove` | examples/issue.py:21-24 | the result is no longer than the input and keeps only orders of the input whose customer differs from `cus` |
| `Issue.RemoveAgrees` | examples/issue.py:21-24 | `REMOVE` returns the same list as `remove_order` on every input, so it inherits `RemoveOrder`'s full specification |
| `Issue.Demo` | examples/issue.py:26-36 | `main` shows Alice's and Bob's orders, then rebinds the result of `REMOVE` and shows Bob's order alone |

## Findings

| source | as written | input that shows it | evidently intended | confidence | as-written member | corrected member |
|---|---|---|---|---|---|---|
| examples/soluce.py:39 | `main` calls `remove_order` and discards the new list it returns, so the list printed "after removal" is unchanged | running `main`: the list printed after removal still holds Alice's Pizza order | rebind the result, as examples/issue.py:35 does, so only Bob's order is printed | high; not executed | `Soluce.Demo` | `Soluce.DemoRebound` |

## Left out

- Console output: the message printed when a food is not on the menu and the lists printed by both `main`s. The rejection shows only as the unchanged list.
- The unused `import os` and the unused module-level `ord = []` in examples/issue.py. Every function shadows that global with its own parameter.
- Python's `if __name__ == "__main__"` guard. Each `main` is modelled as a method that returns the two lists it prints.
- examples/typing_guide.py and worksop/naming/naming.py: floating-point totals and averages, validation delegated to an external library, an empty stub and functions that only print or format. None of this is part of the order store.
- examples/test_soluce.py is a pytest harness. Its assertions appear above as contracts, not as code.
- Object identity of the orders themselves: a comprehension makes a shallow copy, so the new list holds the same dictionary objects as its input. `Order` is a value here; no operation of the store mutates an order, so the difference cannot be observed.
- Dynamic typing: Python would also accept orders that are not two-key dictionaries. The model types every order as `Order`.
