/** The stock and sales bookkeeping of the order workflow, as functions over the product
    table. `Reserve` is the order-creation pass over the caller's cart lines, `Restock`
    the cancellation pass over an order's items; both take the rows in the order the
    query returned them and update the products one row at a time, as the controller's
    loops do. */
module Inventory {
  import opened Records
  import Status

  ghost predicate LinesKnown(products: map<nat, Product>, lines: seq<CartLine>)
  {
    forall i :: 0 <= i < |lines| ==> lines[i].productId in products
  }

  ghost predicate ItemsKnown(products: map<nat, Product>, items: seq<OrderItem>)
  {
    forall i :: 0 <= i < |items| ==> items[i].productId in products
  }

  /** No two lines name the same product, as in one user's cart. */
  ghost predicate DistinctProducts(lines: seq<CartLine>)
  {
    forall i, j :: 0 <= i < j < |lines| ==> lines[i].productId != lines[j].productId
  }

  ghost predicate PositiveLines(lines: seq<CartLine>)
  {
    forall i :: 0 <= i < |lines| ==> lines[i].quantity >= 1
  }

  // ---------------------------------------------------------------- order creation

  /** One cart line taken into an order: its units leave stock and count as sold. */
  function Take(p: Product, quantity: int): Product
  {
    p.(stock := p.stock - quantity, sales := p.sales + quantity)
  }

  /** The stock pass of order creation: each line is checked against the stock as the
      earlier lines left it, and the first line that finds too little stock aborts the
      whole pass (`None`). */
  function Reserve(products: map<nat, Product>, lines: seq<CartLine>): (r: Option<map<nat, Product>>)
    requires LinesKnown(products, lines)
    ensures r.Some? ==> r.value.Keys == products.Keys
    decreases |lines|
  {
    if lines == [] then Some(products)
    else
      var prefix, line := lines[..|lines| - 1], lines[|lines| - 1];
      assert LinesKnown(products, prefix);
      match Reserve(products, prefix)
      case None => None
      case Some(current) =>
        if current[line.productId].stock < line.quantity then None
        else Some(current[line.productId := Take(current[line.productId], line.quantity)])
  }

  /** The units of product `pid` that `lines` ask for. */
  function QtyOf(lines: seq<CartLine>, pid: nat): int
    decreases |lines|
  {
    if lines == [] then 0
    else
      var line := lines[|lines| - 1];
      QtyOf(lines[..|lines| - 1], pid) + (if line.productId == pid then line.quantity else 0)
  }

  /** The order total: the sum of price times quantity, at the products' current prices. */
  function LinesTotal(products: map<nat, Product>, lines: seq<CartLine>): int
    requires LinesKnown(products, lines)
    decreases |lines|
  {
    if lines == [] then 0
    else
      var line := lines[|lines| - 1];
      assert LinesKnown(products, lines[..|lines| - 1]);
      LinesTotal(products, lines[..|lines| - 1]) + products[line.productId].price * line.quantity
  }

  /** The items of a new order, one per cart line, with the price snapshotted. */
  function MakeItems(orderId: nat, products: map<nat, Product>, lines: seq<CartLine>): seq<OrderItem>
    requires LinesKnown(products, lines)
  {
    seq(|lines|, i requires 0 <= i < |lines| =>
      OrderItem(orderId, lines[i].productId, lines[i].quantity, products[lines[i].productId].price))
  }

  /** One item per cart line, in order, each with the new order's id and the line's
      product and quantity. */
  lemma MakeItemsShape(orderId: nat, products: map<nat, Product>, lines: seq<CartLine>)
    requires LinesKnown(products, lines)
    ensures |MakeItems(orderId, products, lines)| == |lines|
    ensures forall i :: 0 <= i < |lines| ==>
      && MakeItems(orderId, products, lines)[i].orderId == orderId
      && MakeItems(orderId, products, lines)[i].productId == lines[i].productId
      && MakeItems(orderId, products, lines)[i].quantity == lines[i].quantity
  {
  }

  /** With non-negative quantities and prices, the order total is non-negative. */
  lemma {:induction false} LinesTotalNonNegative(products: map<nat, Product>, lines: seq<CartLine>)
    requires LinesKnown(products, lines)
    requires forall i :: 0 <= i < |lines| ==> lines[i].quantity >= 0 && products[lines[i].productId].price >= 0
    ensures LinesTotal(products, lines) >= 0
  {
    if lines != [] {
      var n := |lines| - 1;
      assert LinesKnown(products, lines[..n]);
      LinesTotalNonNegative(products, lines[..n]);
      assert lines[n].quantity >= 0 && products[lines[n].productId].price >= 0;
    }
  }

  /** The sum of price times quantity over an order's items. */
  function ItemsTotal(items: seq<OrderItem>): int
    decreases |items|
  {
    if items == [] then 0
    else ItemsTotal(items[..|items| - 1]) + items[|items| - 1].price * items[|items| - 1].quantity
  }

  /** The units of product `pid` in `items`. */
  function ItemQty(items: seq<OrderItem>, pid: nat): int
    decreases |items|
  {
    if items == [] then 0
    else
      var item := items[|items| - 1];
      ItemQty(items[..|items| - 1], pid) + (if item.productId == pid then item.quantity else 0)
  }

  lemma {:induction false} QtyOfAbsent(lines: seq<CartLine>, pid: nat)
    requires forall i :: 0 <= i < |lines| ==> lines[i].productId != pid
    ensures QtyOf(lines, pid) == 0
  {
    if lines != [] {
      QtyOfAbsent(lines[..|lines| - 1], pid);
    }
  }

  /** After a successful pass every product has lost exactly the units ordered from it
      from stock and gained them in sales; nothing else about it changes. */
  lemma {:induction false} ReserveEffect(products: map<nat, Product>, lines: seq<CartLine>, pid: nat)
    requires LinesKnown(products, lines)
    requires Reserve(products, lines).Some?
    requires pid in products
    ensures Reserve(products, lines).value[pid] ==
      products[pid].(stock := products[pid].stock - QtyOf(lines, pid),
                     sales := products[pid].sales + QtyOf(lines, pid))
  {
    if lines != [] {
      var prefix := lines[..|lines| - 1];
      assert LinesKnown(products, prefix);
      ReserveEffect(products, prefix, pid);
    }
  }

  /** Stock plus sales is the same before and after a successful pass. */
  lemma ReserveConserves(products: map<nat, Product>, lines: seq<CartLine>, pid: nat)
    requires LinesKnown(products, lines)
    requires Reserve(products, lines).Some?
    requires pid in products
    ensures Reserve(products, lines).value[pid].stock + Reserve(products, lines).value[pid].sales
         == products[pid].stock + products[pid].sales
  {
    ReserveEffect(products, lines, pid);
  }

  /** Once a prefix of the lines fails the stock check, the whole pass fails. */
  lemma {:induction false} ReservePrefixFails(products: map<nat, Product>, lines: seq<CartLine>, k: nat)
    requires LinesKnown(products, lines)
    requires k <= |lines|
    requires LinesKnown(products, lines[..k]) && Reserve(products, lines[..k]).None?
    ensures Reserve(products, lines).None?
    decreases |lines|
  {
    if k == |lines| {
      assert lines[..k] == lines;
    } else {
      var n := |lines| - 1;
      assert lines[..n][..k] == lines[..k];
      assert LinesKnown(products, lines[..n]);
      ReservePrefixFails(products, lines[..n], k);
    }
  }

  /** For a cart with one line per product the pass succeeds exactly when every line's
      quantity is within that product's stock before the order. */
  lemma {:induction false} ReserveSucceedsIff(products: map<nat, Product>, lines: seq<CartLine>)
    requires LinesKnown(products, lines)
    requires DistinctProducts(lines)
    ensures Reserve(products, lines).Some? <==>
      forall i :: 0 <= i < |lines| ==> lines[i].quantity <= products[lines[i].productId].stock
  {
    if lines != [] {
      var n := |lines| - 1;
      var prefix, line := lines[..n], lines[n];
      assert LinesKnown(products, prefix) && DistinctProducts(prefix);
      ReserveSucceedsIff(products, prefix);
      if Reserve(products, prefix).Some? {
        QtyOfAbsent(prefix, line.productId);
        ReserveEffect(products, prefix, line.productId);
      }
    }
  }

  /** A successful pass never leaves an ordered product with negative stock, and a
      product whose stock was not negative stays so. */
  lemma {:induction false} ReserveNeverOverdraws(products: map<nat, Product>, lines: seq<CartLine>)
    requires LinesKnown(products, lines)
    requires Reserve(products, lines).Some?
    ensures forall pid :: pid in products && products[pid].stock >= 0 ==>
      Reserve(products, lines).value[pid].stock >= 0
    ensures forall i :: 0 <= i < |lines| ==> Reserve(products, lines).value[lines[i].productId].stock >= 0
  {
    if lines != [] {
      var n := |lines| - 1;
      var prefix, line := lines[..n], lines[n];
      assert LinesKnown(products, prefix);
      ReserveNeverOverdraws(products, prefix);
      var current := Reserve(products, prefix).value;
      var r := Reserve(products, lines).value;
      assert r == current[line.productId := Take(current[line.productId], line.quantity)];
      forall i | 0 <= i < |lines|
        ensures r[lines[i].productId].stock >= 0
      {
        if i < n && lines[i].productId != line.productId {
          assert lines[i] == prefix[i];
        }
      }
    }
  }

  /** What a successful pass leaves, product by product, stated on its result. */
  lemma ReserveOutcome(products: map<nat, Product>, lines: seq<CartLine>, after: map<nat, Product>)
    requires LinesKnown(products, lines)
    requires Reserve(products, lines) == Some(after)
    ensures after.Keys == products.Keys
    ensures forall pid :: pid in products ==>
      after[pid] == products[pid].(stock := products[pid].stock - QtyOf(lines, pid),
                                   sales := products[pid].sales + QtyOf(lines, pid))
    ensures forall pid :: pid in products && products[pid].stock >= 0 ==> after[pid].stock >= 0
  {
    ReserveNeverOverdraws(products, lines);
    forall pid | pid in products
      ensures after[pid] == products[pid].(stock := products[pid].stock - QtyOf(lines, pid),
                                           sales := products[pid].sales + QtyOf(lines, pid))
    {
      ReserveEffect(products, lines, pid);
    }
  }

  lemma MakeItemsPrefix(orderId: nat, products: map<nat, Product>, lines: seq<CartLine>, k: nat)
    requires LinesKnown(products, lines)
    requires k <= |lines|
    ensures LinesKnown(products, lines[..k])
    ensures MakeItems(orderId, products, lines)[..k] == MakeItems(orderId, products, lines[..k])
  {
  }

  /** The order's total is the sum over its items of price times quantity. */
  lemma {:induction false} OrderTotalIsItemsTotal(orderId: nat, products: map<nat, Product>, lines: seq<CartLine>)
    requires LinesKnown(products, lines)
    ensures ItemsTotal(MakeItems(orderId, products, lines)) == LinesTotal(products, lines)
  {
    if lines != [] {
      var n := |lines| - 1;
      MakeItemsPrefix(orderId, products, lines, n);
      OrderTotalIsItemsTotal(orderId, products, lines[..n]);
    }
  }

  /** The items of an order hold, product by product, the units its cart lines asked for. */
  lemma {:induction false} MakeItemsQty(orderId: nat, products: map<nat, Product>, lines: seq<CartLine>, pid: nat)
    requires LinesKnown(products, lines)
    ensures ItemQty(MakeItems(orderId, products, lines), pid) == QtyOf(lines, pid)
  {
    if lines != [] {
      var n := |lines| - 1;
      MakeItemsPrefix(orderId, products, lines, n);
      MakeItemsQty(orderId, products, lines[..n], pid);
    }
  }

  // ------------------------------------------------------------ order cancellation

  function Max0(n: int): nat
  {
    if n < 0 then 0 else n
  }

  /** One item of a cancelled order: its units return to stock; sales drop by as many,
      floored at zero, only when `status` (the order status the loop tests) is counted
      as sold. */
  function Restore(p: Product, quantity: int, status: string): (r: Product)
    ensures r.(stock := p.stock, sales := p.sales) == p
    ensures r.stock == p.stock + quantity
    ensures !Status.Counted(status) ==> r.sales == p.sales
    ensures quantity >= 0 && p.sales >= 0 ==> 0 <= r.sales <= p.sales
  {
    p.(stock := p.stock + quantity,
       sales := if Status.Counted(status) then Max0(p.sales - quantity) else p.sales)
  }

  /** The stock pass of order cancellation over the order's items. */
  function Restock(products: map<nat, Product>, items: seq<OrderItem>, status: string): (r: map<nat, Product>)
    requires ItemsKnown(products, items)
    ensures r.Keys == products.Keys
    decreases |items|
  {
    if items == [] then products
    else
      var prefix, item := items[..|items| - 1], items[|items| - 1];
      assert ItemsKnown(products, prefix);
      var current := Restock(products, prefix, status);
      current[item.productId := Restore(current[item.productId], item.quantity, status)]
  }

  /** The cancellation pass over one more item. */
  lemma RestockSnoc(products: map<nat, Product>, items: seq<OrderItem>, status: string, i: nat)
    requires ItemsKnown(products, items) && i < |items|
    ensures ItemsKnown(products, items[..i]) && ItemsKnown(products, items[..i + 1])
    ensures var before := Restock(products, items[..i], status);
      Restock(products, items[..i + 1], status) ==
        before[items[i].productId := Restore(before[items[i].productId], items[i].quantity, status)]
  {
    assert items[..i + 1][..i] == items[..i];
  }

  /** When the tested status is not counted as sold, cancellation gives every product
      back the units of the order and leaves everything else, sales included, alone. */
  lemma {:induction false} RestockEffect(products: map<nat, Product>, items: seq<OrderItem>, status: string, pid: nat)
    requires ItemsKnown(products, items)
    requires !Status.Counted(status)
    requires pid in products
    ensures Restock(products, items, status)[pid] ==
      products[pid].(stock := products[pid].stock + ItemQty(items, pid))
  {
    if items != [] {
      var prefix := items[..|items| - 1];
      assert ItemsKnown(products, prefix);
      RestockEffect(products, prefix, status, pid);
    }
  }

  /** When the tested status is counted as sold, cancellation also takes the units back
      out of sales, and the floor at zero keeps non-negative sales from going negative:
      they end as the old sales less the units, or zero. */
  lemma {:induction false} RestockCountedEffect(products: map<nat, Product>, items: seq<OrderItem>, status: string, pid: nat)
    requires ItemsKnown(products, items)
    requires forall i :: 0 <= i < |items| ==> items[i].quantity >= 0
    requires Status.Counted(status)
    requires pid in products && products[pid].sales >= 0
    ensures Restock(products, items, status)[pid] ==
      products[pid].(stock := products[pid].stock + ItemQty(items, pid),
                     sales := Max0(products[pid].sales - ItemQty(items, pid)))
  {
    if items != [] {
      var prefix := items[..|items| - 1];
      assert ItemsKnown(products, prefix);
      RestockCountedEffect(products, prefix, status, pid);
      ItemQtyNonNegative(prefix, pid);
    }
  }

  /** Create followed by cancel, as written: the cancellation tests the status after
      overwriting it with "cancelled", so the stock of every product is restored but the
      sales the order added stay, even for an order that had been paid. */
  lemma CancelRestoresStockKeepsSales(orderId: nat, products: map<nat, Product>, lines: seq<CartLine>)
    requires LinesKnown(products, lines)
    requires Reserve(products, lines).Some?
    ensures ItemsKnown(Reserve(products, lines).value, MakeItems(orderId, products, lines))
    ensures forall pid :: pid in products ==>
      Restock(Reserve(products, lines).value, MakeItems(orderId, products, lines), Cancelled)[pid] ==
      products[pid].(sales := products[pid].sales + QtyOf(lines, pid))
  {
    var reserved := Reserve(products, lines).value;
    var items := MakeItems(orderId, products, lines);
    assert !Status.Counted(Cancelled);
    forall pid | pid in products
      ensures Restock(reserved, items, Cancelled)[pid] ==
        products[pid].(sales := products[pid].sales + QtyOf(lines, pid))
    {
      ReserveEffect(products, lines, pid);
      RestockEffect(reserved, items, Cancelled, pid);
      MakeItemsQty(orderId, products, lines, pid);
    }
  }

  /** Create followed by cancel as written, with the items in whatever order the
      cancellation's query returns them: still every product gets its stock back and
      keeps the sales the order added. */
  lemma CancelPermutedKeepsSales(orderId: nat, products: map<nat, Product>, lines: seq<CartLine>,
                                 rows: seq<OrderItem>)
    requires LinesKnown(products, lines)
    requires Reserve(products, lines).Some?
    requires multiset(rows) == multiset(MakeItems(orderId, products, lines))
    ensures ItemsKnown(Reserve(products, lines).value, rows)
    ensures forall pid :: pid in products ==>
      Restock(Reserve(products, lines).value, rows, Cancelled)[pid] ==
      products[pid].(sales := products[pid].sales + QtyOf(lines, pid))
  {
    var reserved := Reserve(products, lines).value;
    var made := MakeItems(orderId, products, lines);
    forall i | 0 <= i < |rows|
      ensures rows[i].productId in reserved
    {
      assert rows[i] in multiset(made);
    }
    assert !Status.Counted(Cancelled);
    forall pid | pid in products
      ensures Restock(reserved, rows, Cancelled)[pid] ==
        products[pid].(sales := products[pid].sales + QtyOf(lines, pid))
    {
      ReserveEffect(products, lines, pid);
      RestockEffect(reserved, rows, Cancelled, pid);
      ItemQtyPermutation(rows, made, pid);
      MakeItemsQty(orderId, products, lines, pid);
    }
  }

  /** Create followed by cancel, as evidently intended: when the loop tests the status
      the order had before cancelling ("paid" here), every product is back exactly where
      it was, sales included. */
  lemma CancelOfPaidOrderRestoresSales(orderId: nat, products: map<nat, Product>, lines: seq<CartLine>)
    requires LinesKnown(products, lines)
    requires PositiveLines(lines)
    requires forall pid :: pid in products ==> products[pid].sales >= 0
    requires Reserve(products, lines).Some?
    ensures ItemsKnown(Reserve(products, lines).value, MakeItems(orderId, products, lines))
    ensures forall pid :: pid in products ==>
      Restock(Reserve(products, lines).value, MakeItems(orderId, products, lines), Paid)[pid] == products[pid]
  {
    var reserved := Reserve(products, lines).value;
    var items := MakeItems(orderId, products, lines);
    assert Status.Counted(Paid);
    forall pid | pid in products
      ensures Restock(reserved, items, Paid)[pid] == products[pid]
    {
      ReserveEffect(products, lines, pid);
      MakeItemsQty(orderId, products, lines, pid);
      QtyOfNonNegative(lines, pid);
      RestockCountedEffect(reserved, items, Paid, pid);
    }
  }

  lemma {:induction false} ItemQtyAppend(a: seq<OrderItem>, b: seq<OrderItem>, pid: nat)
    ensures ItemQty(a + b, pid) == ItemQty(a, pid) + ItemQty(b, pid)
    decreases |b|
  {
    if b != [] {
      var n := |b| - 1;
      assert (a + b)[..|a + b| - 1] == a + b[..n];
      assert (a + b)[|a + b| - 1] == b[n];
      ItemQtyAppend(a, b[..n], pid);
      assert ItemQty(a + b, pid) == ItemQty(a + b[..n], pid) + (if b[n].productId == pid then b[n].quantity else 0);
    } else {
      assert a + b == a;
    }
  }

  /** The units of a product do not depend on the order of the items: any permutation
      of an order's items, as a query may return them, holds the same units. */
  lemma {:induction false} ItemQtyPermutation(a: seq<OrderItem>, b: seq<OrderItem>, pid: nat)
    requires multiset(a) == multiset(b)
    ensures ItemQty(a, pid) == ItemQty(b, pid)
    decreases |a|
  {
    if a == [] {
      assert |b| == |multiset(b)| == 0;
    } else {
      var n := |a| - 1;
      var x := a[n];
      assert a == a[..n] + [x];
      assert x in multiset(b);
      var k :| 0 <= k < |b| && b[k] == x;
      var rest := b[..k] + b[k + 1..];
      assert b == b[..k] + [x] + b[k + 1..];
      assert multiset(b) == multiset(b[..k]) + multiset{x} + multiset(b[k + 1..]);
      assert multiset(rest) == multiset(b[..k]) + multiset(b[k + 1..]);
      assert multiset(a) == multiset(a[..n]) + multiset{x};
      forall y ensures multiset(rest)[y] == multiset(a[..n])[y] {
        assert multiset(b)[y] == multiset(a)[y];
        assert multiset(b)[y] == multiset(b[..k])[y] + multiset{x}[y] + multiset(b[k + 1..])[y];
        assert multiset(rest)[y] == multiset(b[..k])[y] + multiset(b[k + 1..])[y];
        assert multiset(a)[y] == multiset(a[..n])[y] + multiset{x}[y];
      }
      assert multiset(rest) == multiset(a[..n]);
      ItemQtyPermutation(a[..n], rest, pid);
      ItemQtyAppend(b[..k] + [x], b[k + 1..], pid);
      ItemQtyAppend(b[..k], [x], pid);
      ItemQtyAppend(b[..k], b[k + 1..], pid);
      assert [x][..0] == [];
    }
  }

  lemma {:induction false} QtyOfNonNegative(lines: seq<CartLine>, pid: nat)
    requires PositiveLines(lines)
    ensures QtyOf(lines, pid) >= 0
  {
    if lines != [] {
      QtyOfNonNegative(lines[..|lines| - 1], pid);
    }
  }

  lemma {:induction false} ItemQtyNonNegative(items: seq<OrderItem>, pid: nat)
    requires forall i :: 0 <= i < |items| ==> items[i].quantity >= 0
    ensures ItemQty(items, pid) >= 0
  {
    if items != [] {
      ItemQtyNonNegative(items[..|items| - 1], pid);
    }
  }
}
