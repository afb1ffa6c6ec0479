/** The shop's database and the request handlers that read and write it. Each table is
    a map from id to row; one counter hands out fresh ids. A handler receives the
    authenticated caller's id and whether the caller is an administrator, and answers
    with an HTTP status code. A handler that runs a database transaction works on local
    copies of the tables and assigns them only when it commits, so every rejection
    leaves the state as it was. */
module Backend {
  import opened Records
  import opened Tables
  import Inventory
  import Status
  import Card
  import Pagination

  /** A product update payload; `None` marks a field the payload leaves out. */
  datatype ProductPatch = ProductPatch(
    name: Option<string>,
    description: Option<string>,
    price: Option<int>,
    stock: Option<int>,
    imagePath: Option<string>,
    categoryId: Option<int>)

  /** A product with the fields present in `patch` replaced. */
  function Patched(product: Product, patch: ProductPatch): (r: Product)
    requires patch.categoryId.Some? ==> patch.categoryId.value >= 0
    ensures r.name == patch.name.GetOr(product.name)
    ensures r.description == (if patch.description.Some? then patch.description else product.description)
    ensures r.price == patch.price.GetOr(product.price)
    ensures r.stock == patch.stock.GetOr(product.stock)
    ensures r.imagePath == (if patch.imagePath.Some? then patch.imagePath else product.imagePath)
    ensures r.categoryId as int == patch.categoryId.GetOr(product.categoryId)
    ensures r.sales == product.sales
  {
    Product(patch.name.GetOr(product.name),
            if patch.description.Some? then patch.description else product.description,
            patch.price.GetOr(product.price),
            patch.stock.GetOr(product.stock),
            product.sales,
            if patch.categoryId.Some? then patch.categoryId.value as nat else product.categoryId,
            if patch.imagePath.Some? then patch.imagePath else product.imagePath)
  }

  /** A patch with no fields leaves the product as it was. */
  lemma EmptyPatchKeeps(product: Product)
    ensures Patched(product, ProductPatch(None, None, None, None, None, None)) == product
  {
  }

  /** Applying the same patch twice is applying it once. */
  lemma PatchIdempotent(product: Product, patch: ProductPatch)
    requires patch.categoryId.Some? ==> patch.categoryId.value >= 0
    ensures Patched(Patched(product, patch), patch) == Patched(product, patch)
  {
  }

  /** The owner of an order, or an administrator, may see, pay or cancel it. */
  predicate MayAccess(order: Order, caller: nat, isAdmin: bool)
  {
    order.userId == caller || isAdmin
  }

  /** Every id in use was handed out before `next`. */
  ghost predicate IdsBelow<V>(table: map<nat, V>, next: nat)
  {
    forall id :: id in table ==> id < next
  }

  ghost predicate ProductsLinked(products: map<nat, Product>, categories: map<nat, Category>)
  {
    forall id :: id in products ==> products[id].categoryId in categories
  }

  /** Cart lines name existing users and products and hold at least one unit. */
  ghost predicate CartLinked(cart: map<nat, CartLine>, users: map<nat, User>, products: map<nat, Product>)
  {
    forall id :: id in cart ==> cart[id].userId in users && cart[id].productId in products && cart[id].quantity >= 1
  }

  ghost predicate OrdersLinked(orders: map<nat, Order>, users: map<nat, User>)
  {
    forall id :: id in orders ==> orders[id].userId in users
  }

  /** Order items name existing orders and products and hold at least one unit. */
  ghost predicate ItemsLinked(items: map<nat, OrderItem>, orders: map<nat, Order>, products: map<nat, Product>)
  {
    forall id :: id in items ==> items[id].orderId in orders && items[id].productId in products && items[id].quantity >= 1
  }

  ghost predicate PaymentsLinked(payments: map<nat, Payment>, orders: map<nat, Order>)
  {
    forall id :: id in payments ==> payments[id].orderId in orders
  }

  ghost predicate UniqueEmails(users: map<nat, User>)
  {
    forall a, b :: a in users && b in users && users[a].email == users[b].email ==> a == b
  }

  /** No user has two lines for the same product. */
  ghost predicate OneLinePerProduct(cart: map<nat, CartLine>)
  {
    forall a, b :: (a in cart && b in cart && cart[a].userId == cart[b].userId &&
      cart[a].productId == cart[b].productId) ==> a == b
  }

  /** The shop's integrity constraints: ids below the counter, references that resolve,
      one cart line per user and product, and unique e-mail addresses. */
  ghost predicate Consistent(products: map<nat, Product>, categories: map<nat, Category>, cart: map<nat, CartLine>,
                             orders: map<nat, Order>, items: map<nat, OrderItem>, payments: map<nat, Payment>,
                             users: map<nat, User>, nextId: nat)
  {
    && IdsBelow(products, nextId) && IdsBelow(categories, nextId) && IdsBelow(cart, nextId)
    && IdsBelow(orders, nextId) && IdsBelow(items, nextId) && IdsBelow(payments, nextId)
    && IdsBelow(users, nextId)
    && ProductsLinked(products, categories)
    && CartLinked(cart, users, products) && OneLinePerProduct(cart)
    && OrdersLinked(orders, users)
    && ItemsLinked(items, orders, products)
    && PaymentsLinked(payments, orders)
    && UniqueEmails(users)
  }

  /** Changing the quantity of a line keeps one line per product. */
  lemma OneLinePerProductAfterMerge(cart: map<nat, CartLine>, id: nat, quantity: int)
    requires OneLinePerProduct(cart) && id in cart
    ensures OneLinePerProduct(cart[id := cart[id].(quantity := quantity)])
  {
  }

  /** A new line for a (user, product) that has none keeps one line per product. */
  lemma OneLinePerProductAfterInsert(cart: map<nat, CartLine>, id: nat, line: CartLine)
    requires OneLinePerProduct(cart) && id !in cart
    requires forall other :: other in cart ==> !(cart[other].userId == line.userId && cart[other].productId == line.productId)
    ensures OneLinePerProduct(cart[id := line])
  {
  }

  lemma IdsBelowGrow<V>(table: map<nat, V>, next: nat, later: nat)
    requires IdsBelow(table, next) && next <= later
    ensures IdsBelow(table, later)
  {
  }

  /** The items order creation inserts refer to the new order and to known products. */
  lemma NewItemsLinked(items: map<nat, OrderItem>, orders: map<nat, Order>, products: map<nat, Product>,
                       stock: map<nat, Product>, oid: nat, order: Order, lines: seq<CartLine>,
                       newItems: map<nat, OrderItem>)
    requires ItemsLinked(items, orders, products) && IdsBelow(items, oid) && oid !in orders
    requires stock.Keys == products.Keys
    requires Inventory.LinesKnown(products, lines) && Inventory.PositiveLines(lines)
    requires newItems == items + Numbered(oid + 1, Inventory.MakeItems(oid, products, lines))
    ensures ItemsLinked(newItems, orders[oid := order], stock)
    ensures IdsBelow(newItems, oid + 1 + |lines|)
  {
    var made := Inventory.MakeItems(oid, products, lines);
    NumberedAt(oid + 1, made);
    forall id | id in newItems
      ensures id < oid + 1 + |lines|
      ensures newItems[id].orderId in orders[oid := order]
      ensures newItems[id].productId in stock && newItems[id].quantity >= 1
    {
      if id in Numbered(oid + 1, made) {
        assert newItems[id] == made[id - (oid + 1)];
      }
    }
  }

  /** Dropping a user's lines keeps the cart linked once the products keep their ids. */
  lemma CartAfterOrder(cart: map<nat, CartLine>, users: map<nat, User>, products: map<nat, Product>,
                       stock: map<nat, Product>, gone: set<nat>, next: nat, later: nat)
    requires CartLinked(cart, users, products) && OneLinePerProduct(cart) && IdsBelow(cart, next)
    requires stock.Keys == products.Keys && next <= later
    ensures CartLinked(cart - gone, users, stock) && OneLinePerProduct(cart - gone) && IdsBelow(cart - gone, later)
  {
  }

  /** No product has negative stock. Not an invariant of the whole shop: an
      administrator may store any stock value. */
  ghost predicate NonNegativeStock(products: map<nat, Product>)
  {
    forall id :: id in products ==> products[id].stock >= 0
  }

  /** The product rows a successful stock pass leaves keep their categories, and
      stock that was not negative stays so. */
  lemma ProductsAfterOrder(products: map<nat, Product>, categories: map<nat, Category>, lines: seq<CartLine>,
                           stock: map<nat, Product>, next: nat, later: nat)
    requires ProductsLinked(products, categories) && IdsBelow(products, next) && next <= later
    requires Inventory.LinesKnown(products, lines) && Inventory.Reserve(products, lines) == Some(stock)
    ensures ProductsLinked(stock, categories) && IdsBelow(stock, later)
    ensures NonNegativeStock(products) ==> NonNegativeStock(stock)
  {
    Inventory.ReserveOutcome(products, lines, stock);
  }

  /** Committing a successful stock pass over a user's cart lines, with the new order
      under `oid` and its items after it, keeps the shop consistent. */
  lemma OrderCommitKeepsConsistent(products: map<nat, Product>, categories: map<nat, Category>, cart: map<nat, CartLine>,
                                   orders: map<nat, Order>, items: map<nat, OrderItem>, payments: map<nat, Payment>,
                                   users: map<nat, User>, oid: nat, order: Order, ids: seq<nat>, lines: seq<CartLine>,
                                   stock: map<nat, Product>, newItems: map<nat, OrderItem>, remaining: map<nat, CartLine>)
    requires Consistent(products, categories, cart, orders, items, payments, users, oid)
    requires order.userId in users
    requires Inventory.LinesKnown(products, lines) && Inventory.PositiveLines(lines) && |lines| == |ids|
    requires Inventory.Reserve(products, lines) == Some(stock)
    requires newItems == items + Numbered(oid + 1, Inventory.MakeItems(oid, products, lines))
    requires remaining == cart - Elements(ids)
    ensures Consistent(stock, categories, remaining, orders[oid := order], newItems, payments, users, oid + 1 + |ids|)
    ensures NonNegativeStock(products) ==> NonNegativeStock(stock)
  {
    var next := oid + 1 + |ids|;
    NewItemsLinked(items, orders, products, stock, oid, order, lines, newItems);
    CartAfterOrder(cart, users, products, stock, Elements(ids), oid, next);
    ProductsAfterOrder(products, categories, lines, stock, oid, next);
    IdsBelowGrow(categories, oid, next);
    IdsBelowGrow(orders[oid := order], oid + 1, next);
    IdsBelowGrow(payments, oid, next);
    IdsBelowGrow(users, oid, next);
  }

  /** The tables after order creation committed, against the tables before: the stock
      pass over `lines` (the rows of the cart lines `lineIds`, in that order) succeeded
      and gave the products; the order, "pending" with the lines' total at the
      products' prices, took the id `next` and one item per line the ids after it; the
      lines left the cart. */
  ghost predicate OrderPlaced(products: map<nat, Product>, cart: map<nat, CartLine>, orders: map<nat, Order>,
                              items: map<nat, OrderItem>, next: nat, user: nat, shippingAddress: string,
                              lineIds: seq<nat>, lines: seq<CartLine>,
                              products': map<nat, Product>, cart': map<nat, CartLine>, orders': map<nat, Order>,
                              items': map<nat, OrderItem>, next': nat)
  {
    && Distinct(lineIds) && RowsAt(cart, lineIds, lines)
    && Inventory.LinesKnown(products, lines)
    && Inventory.Reserve(products, lines) == Some(products')
    && orders' == orders[next := Order(user, shippingAddress, Pending, Inventory.LinesTotal(products, lines))]
    && items' == items + Numbered(next + 1, Inventory.MakeItems(next, products, lines))
    && cart' == cart - Elements(lineIds)
    && next' == next + 1 + |lineIds|
  }

  /** The copies the stock pass of order creation holds after its first `i` lines. */
  ghost predicate Passed(products: map<nat, Product>, items: map<nat, OrderItem>, cart: map<nat, CartLine>,
                         oid: nat, ids: seq<nat>, lines: seq<CartLine>, i: nat,
                         stock: map<nat, Product>, newItems: map<nat, OrderItem>, remaining: map<nat, CartLine>,
                         total: int)
  {
    && i <= |lines| && i <= |ids|
    && Inventory.LinesKnown(products, lines[..i])
    && Inventory.Reserve(products, lines[..i]) == Some(stock)
    && total == Inventory.LinesTotal(products, lines[..i])
    && newItems == items + Numbered(oid + 1, Inventory.MakeItems(oid, products, lines[..i]))
    && remaining == cart - Elements(ids[..i])
  }

  /** The stock and the total after one more line that finds enough stock. */
  lemma ReserveStep(products: map<nat, Product>, lines: seq<CartLine>, i: nat, stock: map<nat, Product>)
    requires Inventory.LinesKnown(products, lines) && i < |lines|
    requires Inventory.LinesKnown(products, lines[..i]) && Inventory.Reserve(products, lines[..i]) == Some(stock)
    requires stock[lines[i].productId].stock >= lines[i].quantity
    ensures Inventory.LinesKnown(products, lines[..i + 1])
    ensures stock[lines[i].productId].price == products[lines[i].productId].price
    ensures Inventory.Reserve(products, lines[..i + 1]) ==
      Some(stock[lines[i].productId := Inventory.Take(stock[lines[i].productId], lines[i].quantity)])
    ensures Inventory.LinesTotal(products, lines[..i + 1]) ==
      Inventory.LinesTotal(products, lines[..i]) + stock[lines[i].productId].price * lines[i].quantity
  {
    var line := lines[i];
    assert lines[..i + 1][..i] == lines[..i] && lines[..i + 1][i] == line;
    assert Inventory.LinesKnown(products, lines[..i + 1]);
    Inventory.ReserveEffect(products, lines[..i], line.productId);
  }

  /** The numbered items after one more line. */
  lemma ItemsStep(products: map<nat, Product>, items: map<nat, OrderItem>, oid: nat, lines: seq<CartLine>, i: nat)
    requires Inventory.LinesKnown(products, lines) && i < |lines|
    ensures Inventory.LinesKnown(products, lines[..i]) && Inventory.LinesKnown(products, lines[..i + 1])
    ensures items + Numbered(oid + 1, Inventory.MakeItems(oid, products, lines[..i + 1])) ==
      (items + Numbered(oid + 1, Inventory.MakeItems(oid, products, lines[..i])))[oid + 1 + i :=
        OrderItem(oid, lines[i].productId, lines[i].quantity, products[lines[i].productId].price)]
  {
    var line := lines[i];
    assert lines[..i + 1][..i] == lines[..i] && lines[..i + 1][i] == line;
    assert Inventory.LinesKnown(products, lines[..i + 1]);
    var item := OrderItem(oid, line.productId, line.quantity, products[line.productId].price);
    var before := Inventory.MakeItems(oid, products, lines[..i]);
    assert Inventory.MakeItems(oid, products, lines[..i + 1]) == before + [item];
    NumberedSnoc(oid + 1, before, item);
    MergeUpdate(items, Numbered(oid + 1, before), oid + 1 + i, item);
  }

  /** One more cart line through the stock pass, when it finds enough stock: the
      product's stock falls and its sales rise by the line's quantity, an item with the
      product's price is numbered, the total grows and the line is dropped. */
  lemma PassedStep(products: map<nat, Product>, items: map<nat, OrderItem>, cart: map<nat, CartLine>,
                   oid: nat, ids: seq<nat>, lines: seq<CartLine>, i: nat,
                   stock: map<nat, Product>, newItems: map<nat, OrderItem>, remaining: map<nat, CartLine>,
                   total: int)
    requires Inventory.LinesKnown(products, lines) && i < |lines| && i < |ids|
    requires Passed(products, items, cart, oid, ids, lines, i, stock, newItems, remaining, total)
    ensures lines[i].productId in stock
    ensures stock[lines[i].productId].stock >= lines[i].quantity ==>
      var pid, q := lines[i].productId, lines[i].quantity;
      Passed(products, items, cart, oid, ids, lines, i + 1,
             stock[pid := Inventory.Take(stock[pid], q)],
             newItems[oid + 1 + i := OrderItem(oid, pid, q, stock[pid].price)],
             remaining - {ids[i]},
             total + stock[pid].price * q)
  {
    if stock[lines[i].productId].stock >= lines[i].quantity {
      ReserveStep(products, lines, i, stock);
      ItemsStep(products, items, oid, lines, i);
      ElementsSnoc(ids, i);
    }
  }

  /** The stock pass stops at a line that finds too little stock, and then the pass over
      all the lines fails. */
  lemma PassedStop(products: map<nat, Product>, items: map<nat, OrderItem>, cart: map<nat, CartLine>,
                   oid: nat, ids: seq<nat>, lines: seq<CartLine>, i: nat,
                   stock: map<nat, Product>, newItems: map<nat, OrderItem>, remaining: map<nat, CartLine>,
                   total: int)
    requires Inventory.LinesKnown(products, lines) && i < |lines|
    requires Passed(products, items, cart, oid, ids, lines, i, stock, newItems, remaining, total)
    requires lines[i].productId in stock && stock[lines[i].productId].stock < lines[i].quantity
    ensures Inventory.Reserve(products, lines).None?
  {
    assert lines[..i + 1][..i] == lines[..i] && lines[..i + 1][i] == lines[i];
    assert Inventory.LinesKnown(products, lines[..i + 1]);
    Inventory.ReservePrefixFails(products, lines, i + 1);
  }

  /** The stock pass after all the lines. */
  lemma PassedAll(products: map<nat, Product>, items: map<nat, OrderItem>, cart: map<nat, CartLine>,
                  oid: nat, ids: seq<nat>, lines: seq<CartLine>,
                  stock: map<nat, Product>, newItems: map<nat, OrderItem>, remaining: map<nat, CartLine>,
                  total: int)
    requires |ids| == |lines|
    requires Passed(products, items, cart, oid, ids, lines, |lines|, stock, newItems, remaining, total)
    ensures Inventory.LinesKnown(products, lines)
    ensures Inventory.Reserve(products, lines) == Some(stock)
    ensures total == Inventory.LinesTotal(products, lines)
    ensures newItems == items + Numbered(oid + 1, Inventory.MakeItems(oid, products, lines))
    ensures remaining == cart - Elements(ids)
  {
    assert lines[..|lines|] == lines;
    ElementsAll(ids);
  }

  /** Cancelling an order as written keeps the shop consistent: every product is given
      back the units of the order's items and keeps its sales, and stock that was not
      negative stays so. */
  lemma CancelKeepsConsistent(products: map<nat, Product>, categories: map<nat, Category>, cart: map<nat, CartLine>,
                              orders: map<nat, Order>, items: map<nat, OrderItem>, payments: map<nat, Payment>,
                              users: map<nat, User>, next: nat, orderId: nat, rows: seq<OrderItem>,
                              after: map<nat, Product>)
    requires Consistent(products, categories, cart, orders, items, payments, users, next) && orderId in orders
    requires Inventory.ItemsKnown(products, rows) && forall i :: 0 <= i < |rows| ==> rows[i].quantity >= 1
    requires after == Inventory.Restock(products, rows, Cancelled)
    ensures Consistent(after, categories, cart, orders[orderId := orders[orderId].(status := Cancelled)], items,
                       payments, users, next)
    ensures forall pid :: pid in products ==>
      after[pid] == products[pid].(stock := products[pid].stock + Inventory.ItemQty(rows, pid))
    ensures NonNegativeStock(products) ==> NonNegativeStock(after)
  {
    assert !Status.Counted(Cancelled);
    forall pid | pid in products
      ensures after[pid] == products[pid].(stock := products[pid].stock + Inventory.ItemQty(rows, pid))
      ensures Inventory.ItemQty(rows, pid) >= 0
    {
      Inventory.RestockEffect(products, rows, Cancelled, pid);
      Inventory.ItemQtyNonNegative(rows, pid);
    }
  }

  /** The items a placed order leaves under its id, read back in any order, are the
      items made from its cart lines, rearranged. */
  lemma PlacedOrderItems(orders: map<nat, Order>, items: map<nat, OrderItem>, products: map<nat, Product>,
                         next: nat, made: seq<OrderItem>, items': map<nat, OrderItem>,
                         itemIds: seq<nat>, rows: seq<OrderItem>)
    requires IdsBelow(orders, next) && IdsBelow(items, next) && ItemsLinked(items, orders, products)
    requires forall i :: 0 <= i < |made| ==> made[i].orderId == next
    requires items' == items + Numbered(next + 1, made)
    requires Distinct(itemIds) && Elements(itemIds) == (set id | id in items' && items'[id].orderId == next)
    requires RowsAt(items', itemIds, rows)
    ensures multiset(rows) == multiset(made)
  {
    NumberedAt(next + 1, made);
    forall i | 0 <= i < |itemIds|
      ensures next + 1 <= itemIds[i] < next + 1 + |made| && rows[i] == made[itemIds[i] - (next + 1)]
    {
      var id := itemIds[i];
      assert id in Elements(itemIds);
    }
    forall j | next + 1 <= j < next + 1 + |made|
      ensures j in Elements(itemIds)
    {
      assert items'[j] == made[j - (next + 1)];
    }
    RowsOfRange(next + 1, made, itemIds, rows);
  }

  /** Placing an order and then cancelling it as written, whatever order the
      cancellation's query returns the items in: every product gets its stock back and
      keeps the sales the order added. */
  lemma PlacedThenCancelled(products: map<nat, Product>, cart: map<nat, CartLine>, orders: map<nat, Order>,
                            items: map<nat, OrderItem>, next: nat, user: nat, shippingAddress: string,
                            lineIds: seq<nat>, lines: seq<CartLine>,
                            products': map<nat, Product>, cart': map<nat, CartLine>, orders': map<nat, Order>,
                            items': map<nat, OrderItem>, next': nat, itemIds: seq<nat>, rows: seq<OrderItem>)
    requires IdsBelow(orders, next) && IdsBelow(items, next) && ItemsLinked(items, orders, products)
    requires OrderPlaced(products, cart, orders, items, next, user, shippingAddress, lineIds, lines,
                         products', cart', orders', items', next')
    requires Distinct(itemIds) && Elements(itemIds) == (set id | id in items' && items'[id].orderId == next)
    requires RowsAt(items', itemIds, rows)
    ensures Inventory.ItemsKnown(products', rows)
    ensures forall pid :: pid in products ==>
      Inventory.Restock(products', rows, Cancelled)[pid] ==
      products[pid].(sales := products[pid].sales + Inventory.QtyOf(lines, pid))
  {
    var made := Inventory.MakeItems(next, products, lines);
    PlacedOrderItems(orders, items, products, next, made, items', itemIds, rows);
    Inventory.CancelPermutedKeepsSales(next, products, lines, rows);
  }

  class Shop {
    var products: map<nat, Product>
    var categories: map<nat, Category>
    var cart: map<nat, CartLine>
    var orders: map<nat, Order>
    var items: map<nat, OrderItem>
    var payments: map<nat, Payment>
    var users: map<nat, User>
    /** The next id the database hands out (AUTO_INCREMENT). */
    var nextId: nat

    ghost predicate Valid()
      reads this
    {
      Consistent(products, categories, cart, orders, items, payments, users, nextId)
    }

    constructor ()
      ensures Valid()
      ensures products == map[] && categories == map[] && cart == map[] && orders == map[]
      ensures items == map[] && payments == map[] && users == map[] && nextId == 1
    {
      products, categories, cart, orders := map[], map[], map[], map[];
      items, payments, users := map[], map[], map[];
      nextId := 1;
    }

    /** The ids of a user's cart lines (`findBy(['user' => $user])`). */
    function CartOf(user: nat): set<nat>
      reads this
    {
      set id | id in cart && cart[id].userId == user
    }

    /** The ids of an order's items (`$order->getOrderItems()`). */
    function ItemsOf(orderId: nat): set<nat>
      reads this
    {
      set id | id in items && items[id].orderId == orderId
    }

    /** The ids of the products in a category (`$category->getProducts()`). */
    function ProductsIn(categoryId: nat): set<nat>
      reads this
    {
      set id | id in products && products[id].categoryId == categoryId
    }

    /** A user's cart lines, in any order, are what the stock pass of order creation
        expects: known products, one line per product, at least one unit each. */
    lemma CallerLines(user: nat, ids: seq<nat>) returns (lines: seq<CartLine>)
      requires Valid()
      requires Elements(ids) == CartOf(user)
      requires Distinct(ids)
      ensures RowsAt(cart, ids, lines)
      ensures forall i :: 0 <= i < |lines| ==> lines[i].userId == user
      ensures Inventory.LinesKnown(products, lines)
      ensures Inventory.DistinctProducts(lines)
      ensures Inventory.PositiveLines(lines)
    {
      forall i | 0 <= i < |ids|
        ensures ids[i] in cart && cart[ids[i]].userId == user
      {
        assert ids[i] in Elements(ids);
      }
      lines := Rows(cart, ids);
    }

    /** The stock pass over a user's cart lines, in any order, succeeds exactly when
        every line of the cart is within its product's stock. */
    lemma CallerLinesWithinStock(user: nat, ids: seq<nat>, lines: seq<CartLine>)
      requires Valid()
      requires Elements(ids) == CartOf(user) && RowsAt(cart, ids, lines)
      requires Inventory.LinesKnown(products, lines) && Inventory.DistinctProducts(lines)
      ensures Inventory.Reserve(products, lines).Some? <==>
        forall id :: id in CartOf(user) ==> cart[id].quantity <= products[cart[id].productId].stock
    {
      Inventory.ReserveSucceedsIff(products, lines);
      if forall i :: 0 <= i < |lines| ==> lines[i].quantity <= products[lines[i].productId].stock {
        forall id | id in CartOf(user)
          ensures cart[id].quantity <= products[cart[id].productId].stock
        {
          assert id in Elements(ids);
          var i :| 0 <= i < |ids| && ids[i] == id;
          assert lines[i] == cart[id];
        }
      }
    }

    /** An order's items, in any order, name known products and hold at least one unit. */
    lemma OrderItems(orderId: nat, ids: seq<nat>) returns (rows: seq<OrderItem>)
      requires Valid()
      requires Elements(ids) == ItemsOf(orderId)
      ensures RowsAt(items, ids, rows)
      ensures forall i :: 0 <= i < |rows| ==> rows[i].orderId == orderId && rows[i].quantity >= 1
      ensures Inventory.ItemsKnown(products, rows)
    {
      forall i | 0 <= i < |ids|
        ensures ids[i] in items && items[ids[i]].orderId == orderId
      {
        assert ids[i] in Elements(ids);
      }
      rows := Rows(items, ids);
    }

    // ------------------------------------------------------------------------ cart

    /** The cart listing: the caller's lines and the sum of price times quantity. */
    method ListCartItems(user: nat) returns (lineIds: seq<nat>, lines: seq<CartLine>, total: int)
      requires Valid()
      ensures Distinct(lineIds) && Elements(lineIds) == CartOf(user)
      ensures RowsAt(cart, lineIds, lines)
      ensures Inventory.LinesKnown(products, lines)
      ensures total == Inventory.LinesTotal(products, lines)
    {
      lineIds := Enumerate(CartOf(user));
      ghost var all := CallerLines(user, lineIds);
      lines, total := [], 0;
      var i := 0;
      while i < |lineIds|
        invariant i <= |lineIds|
        invariant lines == all[..i]
        invariant Inventory.LinesKnown(products, lines)
        invariant total == Inventory.LinesTotal(products, lines)
      {
        var line := cart[lineIds[i]];
        var subtotal := products[line.productId].price * line.quantity;
        total := total + subtotal;
        assert (lines + [line])[..i] == lines;
        lines := lines + [line];
        assert all[..i + 1] == all[..i] + [all[i]];
        i := i + 1;
      }
      assert all[..i] == all;
    }

    /** `findOneBy(['user' => $user, 'product' => $product])`: the user's line for a
        product, if there is one. */
    method FindLine(user: nat, productId: nat) returns (r: Option<nat>)
      ensures r.Some? ==> r.value in cart && cart[r.value].userId == user && cart[r.value].productId == productId
      ensures r.None? ==> forall id :: id in cart ==> !(cart[id].userId == user && cart[id].productId == productId)
    {
      if exists id :: id in cart && cart[id].userId == user && cart[id].productId == productId {
        var id :| id in cart && cart[id].userId == user && cart[id].productId == productId;
        r := Some(id);
      } else {
        r := None;
      }
    }

    /** Adding a product to the cart: a line the caller already has for it grows by the
        requested quantity, otherwise one new line is created. */
    method AddToCart(user: nat, productId: Option<int>, quantity: Option<int>) returns (code: int, lineId: nat)
      requires Valid() && user in users
      modifies this`cart, this`nextId
      ensures Valid()
      ensures code == BadRequest || code == NotFound || code == Ok
      ensures productId.None? || quantity.None? ==> code == BadRequest
      ensures code == NotFound <==>
        productId.Some? && quantity.Some? && !(productId.value >= 0 && productId.value in products)
      ensures productId.Some? && quantity.Some? && productId.value >= 0 && productId.value in products ==>
        (code == BadRequest <==>
          || AtLeastOne(quantity.value) > products[productId.value].stock
          || exists id :: id in old(cart) && old(cart)[id].userId == user && old(cart)[id].productId == productId.value &&
               old(cart)[id].quantity + AtLeastOne(quantity.value) > products[productId.value].stock)
      ensures code != Ok ==> unchanged(this)
      ensures code == Ok ==> productId.Some? && quantity.Some? && productId.value >= 0 && productId.value in products
      ensures code == Ok ==>
        && lineId in cart && cart[lineId].userId == user && cart[lineId].productId == productId.value
        && cart[lineId].quantity <= products[productId.value].stock
      ensures code == Ok && lineId in old(cart) ==>
        && old(cart)[lineId].userId == user && old(cart)[lineId].productId == productId.value
        && cart == old(cart)[lineId := old(cart)[lineId].(quantity := old(cart)[lineId].quantity + AtLeastOne(quantity.value))]
        && nextId == old(nextId)
      ensures code == Ok && lineId !in old(cart) ==>
        && (forall id :: id in old(cart) ==> !(old(cart)[id].userId == user && old(cart)[id].productId == productId.value))
        && lineId == old(nextId) && nextId == old(nextId) + 1
        && cart == old(cart)[lineId := CartLine(user, productId.value, AtLeastOne(quantity.value))]
      ensures productId.Some? && quantity.Some? && productId.value >= 0 && productId.value in products ==>
        (code == Ok <==>
          && AtLeastOne(quantity.value) <= products[productId.value].stock
          && forall id :: id in old(cart) && old(cart)[id].userId == user && old(cart)[id].productId == productId.value ==>
               old(cart)[id].quantity + AtLeastOne(quantity.value) <= products[productId.value].stock)
    {
      lineId := 0;
      if productId.None? || quantity.None? {
        return BadRequest, 0;
      }
      var q := AtLeastOne(quantity.value);
      if productId.value < 0 || productId.value !in products {
        return NotFound, 0;
      }
      var pid := productId.value as nat;
      var product := products[pid];
      if product.stock < q {
        return BadRequest, 0;
      }
      var existing := FindLine(user, pid);
      if existing.Some? {
        var id := existing.value;
        var newQuantity := cart[id].quantity + q;
        if product.stock < newQuantity {
          return BadRequest, 0;
        }
        OneLinePerProductAfterMerge(cart, id, newQuantity);
        cart := cart[id := cart[id].(quantity := newQuantity)];
        lineId := id;
      } else {
        lineId := nextId;
        OneLinePerProductAfterInsert(cart, lineId, CartLine(user, pid, q));
        cart := cart[lineId := CartLine(user, pid, q)];
        nextId := nextId + 1;
      }
      code := Ok;
    }

    /** Setting the quantity of one of the caller's lines. Unlike orders, a cart line
        is never open to an administrator who does not own it. */
    method UpdateCartItem(user: nat, lineId: nat, quantity: Option<int>) returns (code: int)
      requires Valid()
      modifies this`cart
      ensures Valid()
      ensures code == NotFound <==> lineId !in old(cart)
      ensures code == Forbidden <==> lineId in old(cart) && old(cart)[lineId].userId != user
      ensures code == BadRequest <==>
        && lineId in old(cart) && old(cart)[lineId].userId == user
        && (quantity.None? || products[old(cart)[lineId].productId].stock < AtLeastOne(quantity.value))
      ensures code == NotFound || code == Forbidden || code == BadRequest || code == Ok
      ensures code != Ok ==> unchanged(this)
      ensures code == Ok ==>
        && quantity.Some? && lineId in old(cart)
        && cart == old(cart)[lineId := old(cart)[lineId].(quantity := AtLeastOne(quantity.value))]
    {
      if lineId !in cart {
        return NotFound;
      }
      var line := cart[lineId];
      if line.userId != user {
        return Forbidden;
      }
      if quantity.None? {
        return BadRequest;
      }
      var q := AtLeastOne(quantity.value);
      if products[line.productId].stock < q {
        return BadRequest;
      }
      OneLinePerProductAfterMerge(cart, lineId, q);
      cart := cart[lineId := line.(quantity := q)];
      code := Ok;
    }

    /** Removing one of the caller's lines. */
    method RemoveFromCart(user: nat, lineId: nat) returns (code: int)
      requires Valid()
      modifies this`cart
      ensures Valid()
      ensures code == NotFound <==> lineId !in old(cart)
      ensures code == Forbidden <==> lineId in old(cart) && old(cart)[lineId].userId != user
      ensures code == Ok <==> lineId in old(cart) && old(cart)[lineId].userId == user
      ensures code != Ok ==> unchanged(this)
      ensures code == Ok ==> cart == old(cart) - {lineId}
    {
      if lineId !in cart {
        return NotFound;
      }
      if cart[lineId].userId != user {
        return Forbidden;
      }
      cart := cart - {lineId};
      code := Ok;
    }

    /** Emptying the caller's cart, one line at a time. */
    method ClearCart(user: nat) returns (code: int)
      requires Valid()
      modifies this`cart
      ensures Valid()
      ensures code == Ok
      ensures cart == old(cart) - old(CartOf(user))
      ensures CartOf(user) == {}
    {
      var ids := Enumerate(CartOf(user));
      ghost var mine := CartOf(user);
      var remaining := cart;
      var i := 0;
      while i < |ids|
        invariant i <= |ids|
        invariant unchanged(this)
        invariant remaining == cart - Elements(ids[..i])
      {
        ElementsSnoc(ids, i);
        remaining := remaining - {ids[i]};
        i := i + 1;
      }
      ElementsAll(ids);
      cart := remaining;
      code := Ok;
    }

    /** The cart badge: the number of lines, not the number of units. */
    method GetCartCount(user: nat) returns (count: nat)
      requires Valid()
      ensures count == |CartOf(user)|
    {
      var ids := Enumerate(CartOf(user));
      count := |ids|;
    }

    // ---------------------------------------------------------------------- orders

    /** The orders a listing counts: the user's, narrowed to one status when the
        status parameter is truthy. */
    function OrdersOf(user: nat, status: Option<string>): set<nat>
      reads this
    {
      set id | id in orders && orders[id].userId == user && (!Truthy(status) || orders[id].status == status.value)
    }

    /** The caller's order listing: the page window, the number of matching orders and
        the page count (`None` where PHP raises a division by zero). The rows of the page
        depend on creation timestamps, which the model does not hold. */
    method ListOrders(user: nat, page: Option<int>, limit: Option<int>, status: Option<string>)
      returns (window: Pagination.Window, total: nat, pages: Option<int>)
      ensures window == Pagination.Paginate(page, limit, 10)
      ensures total == |OrdersOf(user, status)|
      ensures pages.None? <==> window.limit == 0
      ensures window.limit > 0 ==> pages.Some? && total <= pages.value * window.limit < total + window.limit
    {
      window := Pagination.Paginate(page, limit, 10);
      total := |OrdersOf(user, status)|;
      pages := Pagination.Pages(total, window.limit);
    }

    /** Showing an order: its owner or an administrator sees it with all its items. */
    method ShowOrder(caller: nat, isAdmin: bool, orderId: nat) returns (code: int, itemIds: seq<nat>)
      requires Valid()
      ensures code == NotFound <==> orderId !in orders
      ensures code == Forbidden <==> orderId in orders && !MayAccess(orders[orderId], caller, isAdmin)
      ensures code == Ok <==> orderId in orders && MayAccess(orders[orderId], caller, isAdmin)
      ensures code == Ok ==> Distinct(itemIds) && Elements(itemIds) == ItemsOf(orderId)
      ensures code != Ok ==> itemIds == []
    {
      itemIds := [];
      if orderId !in orders {
        return NotFound, [];
      }
      if !MayAccess(orders[orderId], caller, isAdmin) {
        return Forbidden, [];
      }
      itemIds := Enumerate(ItemsOf(orderId));
      code := Ok;
    }

    /** The loop of order creation over the given cart lines, in that order, on copies
        of the tables: each line is checked against the stock as the earlier lines left
        it; the product's sales rise and its stock falls by the line's quantity, an item
        with the product's current price is numbered from `oid + 1`, the total grows by
        price times quantity and the line is dropped. `ok` is false when a line finds
        too little stock; the copies are then discarded. */
    method StockPass(oid: nat, ids: seq<nat>, ghost lines: seq<CartLine>)
      returns (ok: bool, stock: map<nat, Product>, newItems: map<nat, OrderItem>,
               remaining: map<nat, CartLine>, total: int)
      requires RowsAt(cart, ids, lines)
      requires Inventory.LinesKnown(products, lines)
      ensures ok <==> Inventory.Reserve(products, lines).Some?
      ensures ok ==>
        && Inventory.Reserve(products, lines) == Some(stock)
        && total == Inventory.LinesTotal(products, lines)
        && newItems == items + Numbered(oid + 1, Inventory.MakeItems(oid, products, lines))
        && remaining == cart - Elements(ids)
    {
      stock, newItems, remaining, total := products, items, cart, 0;
      assert lines[..0] == [] && ids[..0] == [] && Inventory.MakeItems(oid, products, []) == [];
      var i := 0;
      while i < |ids|
        invariant i <= |ids|
        invariant Passed(products, items, cart, oid, ids, lines, i, stock, newItems, remaining, total)
      {
        var line := cart[ids[i]];
        PassedStep(products, items, cart, oid, ids, lines, i, stock, newItems, remaining, total);
        var product := stock[line.productId];
        if product.stock < line.quantity {
          PassedStop(products, items, cart, oid, ids, lines, i, stock, newItems, remaining, total);
          return false, stock, newItems, remaining, total;
        }
        product := product.(sales := product.sales + line.quantity);
        newItems := newItems[oid + 1 + i := OrderItem(oid, line.productId, line.quantity, product.price)];
        product := product.(stock := product.stock - line.quantity);
        stock := stock[line.productId := product];
        total := total + product.price * line.quantity;
        remaining := remaining - {ids[i]};
        i := i + 1;
      }
      PassedAll(products, items, cart, oid, ids, lines, stock, newItems, remaining, total);
      ok := true;
    }

    /** The commit of order creation: the new order, with status "pending" and the
        pass's total, takes the next id, its items the ids after it; the copies of the
        products, items and cart replace the tables. */
    method CommitOrder(user: nat, shippingAddress: string, ids: seq<nat>, ghost lines: seq<CartLine>,
                       stock: map<nat, Product>, newItems: map<nat, OrderItem>, remaining: map<nat, CartLine>,
                       total: int)
      returns (orderId: nat)
      requires Valid() && user in users
      requires Distinct(ids) && RowsAt(cart, ids, lines)
      requires Inventory.LinesKnown(products, lines) && Inventory.PositiveLines(lines)
      requires Inventory.Reserve(products, lines) == Some(stock)
      requires total == Inventory.LinesTotal(products, lines)
      requires newItems == items + Numbered(nextId + 1, Inventory.MakeItems(nextId, products, lines))
      requires remaining == cart - Elements(ids)
      modifies this`products, this`cart, this`orders, this`items, this`nextId
      ensures Valid()
      ensures orderId == old(nextId)
      ensures OrderPlaced(old(products), old(cart), old(orders), old(items), old(nextId), user, shippingAddress, ids, lines,
                          products, cart, orders, items, nextId)
      ensures old(NonNegativeStock(products)) ==> NonNegativeStock(products)
    {
      orderId := nextId;
      OrderCommitKeepsConsistent(products, categories, cart, orders, items, payments, users, orderId,
                                 Order(user, shippingAddress, Pending, total), ids, lines, stock, newItems, remaining);
      products, items, cart := stock, newItems, remaining;
      orders := orders[orderId := Order(user, shippingAddress, Pending, total)];
      nextId := nextId + 1 + |ids|;
      assert Consistent(products, categories, cart, orders, items, payments, users, nextId);
    }

    /** Turning the caller's cart into an order, in one transaction. The first cart
        line with too little stock rolls everything back. `lineIds` are the cart lines
        in the order the query returned them and `lines` their rows. */
    method CreateOrder(user: nat, shippingAddress: Option<string>)
      returns (code: int, orderId: nat, ghost lineIds: seq<nat>, ghost lines: seq<CartLine>)
      requires Valid() && user in users
      modifies this`products, this`cart, this`orders, this`items, this`nextId
      ensures Valid()
      ensures code == Created || code == BadRequest
      ensures code == Created <==>
        && shippingAddress.Some?
        && old(CartOf(user)) != {}
        && forall id :: id in old(CartOf(user)) ==> old(cart)[id].quantity <= old(products)[old(cart)[id].productId].stock
      ensures code == BadRequest ==> unchanged(this)
      ensures code == Created ==>
        && orderId == old(nextId) && Elements(lineIds) == old(CartOf(user))
        && OrderPlaced(old(products), old(cart), old(orders), old(items), old(nextId), user, shippingAddress.value,
                       lineIds, lines, products, cart, orders, items, nextId)
      ensures old(NonNegativeStock(products)) ==> NonNegativeStock(products)
    {
      lineIds, lines := [], [];
      orderId := 0;
      if shippingAddress.None? {
        return BadRequest, 0, [], [];
      }
      var ids := Enumerate(CartOf(user));
      if |ids| == 0 {
        return BadRequest, 0, [], [];
      }
      ghost var rows := CallerLines(user, ids);
      CallerLinesWithinStock(user, ids, rows);
      var ok, stock, newItems, remaining, total := StockPass(nextId, ids, rows);
      if !ok {
        return BadRequest, 0, [], [];
      }
      orderId := CommitOrder(user, shippingAddress.value, ids, rows, stock, newItems, remaining, total);
      code, lineIds, lines := Created, ids, rows;
    }

    /** The cancellation's walk over an order's items: each product gets its units back,
        and loses them from its sales when `status` is one that counts as sold. Nothing
        is written; the caller commits the result. */
    method RestockPass(ids: seq<nat>, ghost rows: seq<OrderItem>, status: string)
      returns (stock: map<nat, Product>)
      requires RowsAt(items, ids, rows) && Inventory.ItemsKnown(products, rows)
      ensures stock == Inventory.Restock(products, rows, status)
    {
      stock := products;
      var i := 0;
      while i < |ids|
        invariant i <= |ids|
        invariant stock == Inventory.Restock(products, rows[..i], status)
      {
        var item := items[ids[i]];
        Inventory.RestockSnoc(products, rows, status, i);
        var product := stock[item.productId];
        product := product.(stock := product.stock + item.quantity);
        if Status.Counted(status) {
          product := product.(sales := Inventory.Max0(product.sales - item.quantity));
        }
        stock := stock[item.productId := product];
        i := i + 1;
      }
      assert rows[..i] == rows;
    }

    /** Cancelling an order, in one transaction. The status is overwritten with
        "cancelled" before the items are walked, so the test that decides whether sales
        fall always sees "cancelled": stock comes back, sales stay. `itemIds` are the
        order's items in the order the query returned them and `rows` their rows. */
    method CancelOrder(caller: nat, isAdmin: bool, orderId: nat)
      returns (code: int, ghost itemIds: seq<nat>, ghost rows: seq<OrderItem>)
      requires Valid()
      modifies this`orders, this`products
      ensures Valid()
      ensures code == NotFound <==> orderId !in old(orders)
      ensures code == Forbidden <==> orderId in old(orders) && !MayAccess(old(orders)[orderId], caller, isAdmin)
      ensures code == BadRequest <==>
        && orderId in old(orders) && MayAccess(old(orders)[orderId], caller, isAdmin)
        && old(orders)[orderId].status != Pending && old(orders)[orderId].status != Paid
      ensures code == NotFound || code == Forbidden || code == BadRequest || code == Ok
      ensures code != Ok ==> unchanged(this)
      ensures code == Ok ==>
        && orderId in old(orders)
        && orders == old(orders)[orderId := old(orders)[orderId].(status := Cancelled)]
        && Distinct(itemIds) && Elements(itemIds) == ItemsOf(orderId) && RowsAt(items, itemIds, rows)
        && Inventory.ItemsKnown(old(products), rows)
        && products == Inventory.Restock(old(products), rows, Cancelled)
      ensures code == Ok ==> forall pid :: pid in old(products) ==>
        products[pid] == old(products)[pid].(stock := old(products)[pid].stock + Inventory.ItemQty(rows, pid))
      ensures old(NonNegativeStock(products)) ==> NonNegativeStock(products)
    {
      itemIds, rows := [], [];
      if orderId !in orders {
        return NotFound, [], [];
      }
      var order := orders[orderId];
      if !MayAccess(order, caller, isAdmin) {
        return Forbidden, [], [];
      }
      if order.status != Pending && order.status != Paid {
        return BadRequest, [], [];
      }
      var ids := Enumerate(ItemsOf(orderId));
      ghost var found := OrderItems(orderId, ids);
      order := order.(status := Cancelled);
      var stock := RestockPass(ids, found, order.status);
      CancelKeepsConsistent(products, categories, cart, orders, items, payments, users, nextId, orderId, found, stock);
      orders := orders[orderId := order];
      products := stock;
      assert Consistent(products, categories, cart, orders, items, payments, users, nextId);
      code, itemIds, rows := Ok, ids, found;
    }

    /** The administrator's status update: the input is upper-cased, checked against the
        upper-case names and stored upper-cased. Stock and sales are left alone. */
    method UpdateOrderStatus(orderId: nat, status: Option<string>) returns (code: int)
      requires Valid() && orderId in orders
      modifies this`orders
      ensures Valid()
      ensures code == BadRequest <==> status.None? || !Status.AdminAccepts(status.value)
      ensures code == BadRequest || code == Ok
      ensures code != Ok ==> unchanged(this)
      ensures code == Ok ==> status.Some? && orders == old(orders)[orderId := old(orders)[orderId].(status := Status.ToUpper(status.value))]
    {
      if status.None? {
        return BadRequest;
      }
      var upper := Status.ToUpper(status.value);
      if upper !in Status.AdminStatuses {
        return BadRequest;
      }
      orders := orders[orderId := orders[orderId].(status := upper)];
      code := Ok;
    }

    /** Deleting an order: its items are removed first, then the order. A payment still
        refers to the order, so the database refuses the flush (500) and nothing is
        removed. */
    method DeleteOrder(orderId: nat) returns (code: int)
      requires Valid() && orderId in orders
      modifies this`orders, this`items
      ensures Valid()
      ensures code == ServerError <==> exists id :: id in payments && payments[id].orderId == orderId
      ensures code == ServerError || code == Ok
      ensures code != Ok ==> unchanged(this)
      ensures code == Ok ==> items == old(items) - old(ItemsOf(orderId)) && orders == old(orders) - {orderId}
      ensures code == Ok ==> ItemsOf(orderId) == {}
    {
      var ids := Enumerate(ItemsOf(orderId));
      var remaining := items;
      var i := 0;
      while i < |ids|
        invariant i <= |ids|
        invariant unchanged(this)
        invariant remaining == items - Elements(ids[..i])
      {
        ElementsSnoc(ids, i);
        remaining := remaining - {ids[i]};
        i := i + 1;
      }
      ElementsAll(ids);
      if exists id :: id in payments && payments[id].orderId == orderId {
        return ServerError;
      }
      items := remaining;
      orders := orders - {orderId};
      code := Ok;
    }

    // -------------------------------------------------------------------- payments

    /** Paying an order with a simulated card. The checks run in this order: the order
        exists, the caller owns it or is an administrator, it is still "pending", both
        payment fields are there, and the card number is sixteen digits once whitespace
        is removed. The payment keeps only the last four digits. */
    method ProcessPayment(caller: nat, isAdmin: bool, orderId: nat, paymentMethod: Option<string>,
                          cardNumber: Option<string>, uniq: string)
      returns (code: int, paymentId: nat)
      requires Valid()
      modifies this`orders, this`payments, this`nextId
      ensures Valid()
      ensures code == NotFound <==> orderId !in old(orders)
      ensures code == Forbidden <==> orderId in old(orders) && !MayAccess(old(orders)[orderId], caller, isAdmin)
      ensures code == BadRequest <==>
        && orderId in old(orders) && MayAccess(old(orders)[orderId], caller, isAdmin)
        && (old(orders)[orderId].status != Pending || paymentMethod.None? || cardNumber.None? ||
            !Card.Accepted(cardNumber.value))
      ensures code == NotFound || code == Forbidden || code == BadRequest || code == Ok
      ensures code != Ok ==> unchanged(this)
      ensures code == Ok ==>
        && orderId in old(orders) && paymentMethod.Some? && cardNumber.Some? && Card.Accepted(cardNumber.value)
        && paymentId == old(nextId) && nextId == old(nextId) + 1
        && payments == old(payments)[paymentId := Payment(orderId, old(orders)[orderId].total, paymentMethod.value,
                                                          Card.LastFour(Card.StripSpaces(cardNumber.value)),
                                                          "completed", "SIM_" + uniq)]
        && orders == old(orders)[orderId := old(orders)[orderId].(status := Paid)]
    {
      paymentId := 0;
      if orderId !in orders {
        return NotFound, 0;
      }
      var order := orders[orderId];
      if !MayAccess(order, caller, isAdmin) {
        return Forbidden, 0;
      }
      if order.status != Pending {
        return BadRequest, 0;
      }
      if paymentMethod.None? || cardNumber.None? {
        return BadRequest, 0;
      }
      var number := Card.StripSpaces(cardNumber.value);
      if !Card.IsCardNumber(number) {
        return BadRequest, 0;
      }
      var payment := Payment(orderId, order.total, paymentMethod.value, Card.LastFour(number), "completed", "SIM_" + uniq);
      order := order.(status := Paid);
      paymentId := nextId;
      payments := payments[paymentId := payment];
      orders := orders[orderId := order];
      nextId := nextId + 1;
      code := Ok;
    }

    // -------------------------------------------------------------------- products

    /** A category id from a payload names a category when it is a known id; a negative
        id finds nothing. */
    predicate KnownCategory(categoryId: int)
      reads this
    {
      categoryId >= 0 && categoryId in categories
    }

    /** Creating a product: name, price, stock and category are required and the
        category must exist. The product starts with no sales; description and image
        are stored when given. */
    method CreateProduct(name: Option<string>, description: Option<string>, price: Option<int>, stock: Option<int>,
                         categoryId: Option<int>, imagePath: Option<string>)
      returns (code: int, productId: nat)
      requires Valid()
      modifies this`products, this`nextId
      ensures Valid()
      ensures code == BadRequest <==>
        name.None? || price.None? || stock.None? || categoryId.None? || !KnownCategory(categoryId.value)
      ensures code == BadRequest || code == Created
      ensures code != Created ==> unchanged(this)
      ensures code == Created ==>
        && name.Some? && price.Some? && stock.Some? && categoryId.Some? && categoryId.value >= 0
        && productId == old(nextId) && productId !in old(products) && nextId == old(nextId) + 1
        && products == old(products)[productId := Product(name.value, description, price.value, stock.value, 0,
                                                          categoryId.value, imagePath)]
    {
      productId := 0;
      if name.None? || price.None? || stock.None? || categoryId.None? {
        return BadRequest, 0;
      }
      if !KnownCategory(categoryId.value) {
        return BadRequest, 0;
      }
      var product := Product(name.value, description, price.value, stock.value, 0, categoryId.value as nat, imagePath);
      productId := nextId;
      products := products[productId := product];
      nextId := nextId + 1;
      assert Consistent(products, categories, cart, orders, items, payments, users, nextId);
      code := Created;
    }

    /** Updating a product: each field present in the patch is replaced and every other
        field, sales included, is kept. A category id that names no category answers
        400 and nothing is written, not even the fields set before it. */
    method UpdateProduct(productId: nat, patch: ProductPatch) returns (code: int)
      requires Valid()
      modifies this`products
      ensures Valid()
      ensures code == NotFound <==> productId !in old(products)
      ensures code == BadRequest <==>
        productId in old(products) && patch.categoryId.Some? && !KnownCategory(patch.categoryId.value)
      ensures code == NotFound || code == BadRequest || code == Ok
      ensures code != Ok ==> unchanged(this)
      ensures code == Ok ==>
        && productId in old(products) && (patch.categoryId.Some? ==> patch.categoryId.value >= 0)
        && products == old(products)[productId := Patched(old(products)[productId], patch)]
    {
      if productId !in products {
        return NotFound;
      }
      if patch.categoryId.Some? && !KnownCategory(patch.categoryId.value) {
        return BadRequest;
      }
      var product := Patched(products[productId], patch);
      products := products[productId := product];
      assert Consistent(products, categories, cart, orders, items, payments, users, nextId);
      code := Ok;
    }

    /** Deleting a product. A product that a cart line or an order item still refers to
        cannot be removed: the database refuses the flush (500) and nothing changes. */
    method DeleteProduct(productId: nat) returns (code: int)
      requires Valid()
      modifies this`products
      ensures Valid()
      ensures code == NotFound <==> productId !in old(products)
      ensures code == ServerError <==>
        && productId in old(products)
        && ((exists id :: id in cart && cart[id].productId == productId) ||
            (exists id :: id in items && items[id].productId == productId))
      ensures code == NotFound || code == ServerError || code == Ok
      ensures code != Ok ==> unchanged(this)
      ensures code == Ok ==> products == old(products) - {productId}
    {
      if productId !in products {
        return NotFound;
      }
      if (exists id :: id in cart && cart[id].productId == productId) ||
         (exists id :: id in items && items[id].productId == productId) {
        return ServerError;
      }
      products := products - {productId};
      assert Consistent(products, categories, cart, orders, items, payments, users, nextId);
      code := Ok;
    }

    // ------------------------------------------------------------------ categories

    /** The category listing: every category once, each with the number of its products. */
    method ListCategories() returns (ids: seq<nat>, counts: seq<nat>)
      ensures Distinct(ids) && Elements(ids) == categories.Keys
      ensures |counts| == |ids|
      ensures forall i :: 0 <= i < |ids| ==> counts[i] == |ProductsIn(ids[i])|
    {
      ids := Enumerate(categories.Keys);
      counts := [];
      var i := 0;
      while i < |ids|
        invariant i <= |ids| && |counts| == i
        invariant forall k :: 0 <= k < i ==> counts[k] == |ProductsIn(ids[k])|
      {
        counts := counts + [|ProductsIn(ids[i])|];
        i := i + 1;
      }
    }

    method ShowCategory(categoryId: nat) returns (code: int, productCount: nat)
      ensures code == NotFound <==> categoryId !in categories
      ensures code == NotFound || code == Ok
      ensures code == Ok ==> productCount == |ProductsIn(categoryId)|
    {
      if categoryId !in categories {
        return NotFound, 0;
      }
      code, productCount := Ok, |ProductsIn(categoryId)|;
    }

    /** Creating a category: a name is required, the description defaults to null. The
        reported count of 0 is the new category's true product count. */
    method CreateCategory(name: Option<string>, description: Option<string>)
      returns (code: int, categoryId: nat, productCount: nat)
      requires Valid()
      modifies this`categories, this`nextId
      ensures Valid()
      ensures code == BadRequest <==> name.None?
      ensures code == BadRequest || code == Created
      ensures code != Created ==> unchanged(this)
      ensures code == Created ==>
        && name.Some? && categoryId == old(nextId) && categoryId !in old(categories) && nextId == old(nextId) + 1
        && categories == old(categories)[categoryId := Category(name.value, description)]
        && productCount == 0 == |ProductsIn(categoryId)|
    {
      categoryId, productCount := 0, 0;
      if name.None? {
        return BadRequest, 0, 0;
      }
      categoryId := nextId;
      assert ProductsIn(categoryId) == {};
      categories := categories[categoryId := Category(name.value, description)];
      nextId := nextId + 1;
      assert Consistent(products, categories, cart, orders, items, payments, users, nextId);
      code := Created;
    }

    /** Updating a category: only the name and description present are replaced. */
    method UpdateCategory(categoryId: nat, name: Option<string>, description: Option<string>)
      returns (code: int, productCount: nat)
      requires Valid()
      modifies this`categories
      ensures Valid()
      ensures code == NotFound <==> categoryId !in old(categories)
      ensures code == NotFound || code == Ok
      ensures code != Ok ==> unchanged(this)
      ensures code == Ok ==>
        && categoryId in old(categories)
        && categories == old(categories)[categoryId := Category(
             name.GetOr(old(categories)[categoryId].name),
             if description.Some? then description else old(categories)[categoryId].description)]
        && productCount == |ProductsIn(categoryId)|
    {
      if categoryId !in categories {
        return NotFound, 0;
      }
      var category := categories[categoryId];
      if name.Some? {
        category := category.(name := name.value);
      }
      if description.Some? {
        category := category.(description := description);
      }
      categories := categories[categoryId := category];
      assert Consistent(products, categories, cart, orders, items, payments, users, nextId);
      code, productCount := Ok, |ProductsIn(categoryId)|;
    }

    /** Deleting a category that still holds products is refused; an empty one is
        removed. The guard is what keeps every product's category in place. */
    method DeleteCategory(categoryId: nat) returns (code: int)
      requires Valid()
      modifies this`categories
      ensures Valid()
      ensures code == NotFound <==> categoryId !in old(categories)
      ensures code == BadRequest <==> categoryId in old(categories) && ProductsIn(categoryId) != {}
      ensures code == NotFound || code == BadRequest || code == Ok
      ensures code != Ok ==> unchanged(this)
      ensures code == Ok ==> categories == old(categories) - {categoryId}
    {
      if categoryId !in categories {
        return NotFound;
      }
      if |ProductsIn(categoryId)| > 0 {
        return BadRequest;
      }
      assert forall id :: id in products ==> products[id].categoryId != categoryId by {
        forall id | id in products ensures products[id].categoryId != categoryId {
          assert products[id].categoryId == categoryId ==> id in ProductsIn(categoryId);
        }
      }
      categories := categories - {categoryId};
      assert Consistent(products, categories, cart, orders, items, payments, users, nextId);
      code := Ok;
    }

    // ----------------------------------------------------------------------- users

    /** The user registered under an e-mail address (`findOneBy(['email' => ...])`). */
    method FindUserByEmail(email: string) returns (r: Option<nat>)
      ensures r.Some? ==> r.value in users && users[r.value].email == email
      ensures r.None? ==> forall id :: id in users ==> users[id].email != email
    {
      if exists id :: id in users && users[id].email == email {
        var id :| id in users && users[id].email == email;
        r := Some(id);
      } else {
        r := None;
      }
    }

    /** Inserting a user under the next id; the address is new, so e-mails stay unique. */
    method InsertUser(user: User) returns (userId: nat)
      requires Valid()
      requires forall id :: id in users ==> users[id].email != user.email
      modifies this`users, this`nextId
      ensures Valid()
      ensures userId == old(nextId) && userId !in old(users) && nextId == old(nextId) + 1
      ensures users == old(users)[userId := user]
    {
      userId := nextId;
      users := users[userId := user];
      nextId := nextId + 1;
      assert Consistent(products, categories, cart, orders, items, payments, users, nextId);
    }

    /** Registration. Checks, in order: email, password and name are present; the
        address is well formed (`isEmail` stands for PHP's e-mail filter); no user has
        that address (409). The new user always gets the plain user role and the hash
        of the password (`hash` stands for the password hasher); address and phone are
        stored when given. */
    method Register(email: Option<string>, password: Option<string>, name: Option<string>,
                    address: Option<string>, phone: Option<string>,
                    isEmail: string -> bool, hash: string -> string)
      returns (code: int, userId: nat)
      requires Valid()
      modifies this`users, this`nextId
      ensures Valid()
      ensures code == BadRequest <==> email.None? || password.None? || name.None? || !isEmail(email.value)
      ensures code == Conflict <==>
        && email.Some? && password.Some? && name.Some? && isEmail(email.value)
        && exists id :: id in old(users) && old(users)[id].email == email.value
      ensures code == BadRequest || code == Conflict || code == Created
      ensures code != Created ==> unchanged(this)
      ensures code == Created ==>
        && email.Some? && password.Some? && name.Some?
        && userId == old(nextId) && userId !in old(users) && nextId == old(nextId) + 1
        && users == old(users)[userId := User(email.value, hash(password.value), name.value, RoleUser, address, phone)]
    {
      userId := 0;
      if email.None? || password.None? || name.None? {
        return BadRequest, 0;
      }
      if !isEmail(email.value) {
        return BadRequest, 0;
      }
      var existing := FindUserByEmail(email.value);
      if existing.Some? {
        return Conflict, 0;
      }
      userId := InsertUser(User(email.value, hash(password.value), name.value, RoleUser, address, phone));
      code := Created;
    }

    /** Login, profile and profile update are stubs: 501, nothing read or written. */
    method Login() returns (code: int)
      ensures code == NotImplemented
    {
      code := NotImplemented;
    }

    method Profile() returns (code: int)
      ensures code == NotImplemented
    {
      code := NotImplemented;
    }

    method UpdateProfile() returns (code: int)
      ensures code == NotImplemented
    {
      code := NotImplemented;
    }

    // ----------------------------------------------------------------------- admin

    /** The roles an administrator may assign and the console command accepts. */
    static predicate IsRole(role: string)
    {
      role == RoleUser || role == RoleAdmin
    }

    /** Changing a user's role. Checks, in order: the user exists (404); it is not the
        calling administrator (400); the role is exactly one of the two roles (400).
        Only that user's role changes. */
    method ChangeUserRole(caller: nat, userId: nat, role: Option<string>) returns (code: int)
      requires Valid()
      modifies this`users
      ensures Valid()
      ensures code == NotFound <==> userId !in old(users)
      ensures code == BadRequest <==> userId in old(users) && (userId == caller || role.None? || !IsRole(role.value))
      ensures code == NotFound || code == BadRequest || code == Ok
      ensures code != Ok ==> unchanged(this)
      ensures code == Ok ==>
        && userId in old(users) && userId != caller && role.Some? && IsRole(role.value)
        && users == old(users)[userId := old(users)[userId].(role := role.value)]
    {
      if userId !in users {
        return NotFound;
      }
      if userId == caller {
        return BadRequest;
      }
      if role.None? || !IsRole(role.value) {
        return BadRequest;
      }
      users := users[userId := users[userId].(role := role.value)];
      assert Consistent(products, categories, cart, orders, items, payments, users, nextId);
      code := Ok;
    }

    /** Deleting a user. Checks, in order: the user exists (404); it is not the calling
        administrator (400). A user whom an order or a cart line still refers to cannot
        be removed: the database refuses the flush (500) and nothing changes. */
    method DeleteUser(caller: nat, userId: nat) returns (code: int)
      requires Valid()
      modifies this`users
      ensures Valid()
      ensures code == NotFound <==> userId !in old(users)
      ensures code == BadRequest <==> userId in old(users) && userId == caller
      ensures code == ServerError <==>
        && userId in old(users) && userId != caller
        && ((exists id :: id in orders && orders[id].userId == userId) ||
            (exists id :: id in cart && cart[id].userId == userId))
      ensures code == NotFound || code == BadRequest || code == ServerError || code == Ok
      ensures code != Ok ==> unchanged(this)
      ensures code == Ok ==> users == old(users) - {userId}
    {
      if userId !in users {
        return NotFound;
      }
      if userId == caller {
        return BadRequest;
      }
      if (exists id :: id in orders && orders[id].userId == userId) ||
         (exists id :: id in cart && cart[id].userId == userId) {
        return ServerError;
      }
      users := users - {userId};
      assert Consistent(products, categories, cart, orders, items, payments, users, nextId);
      code := Ok;
    }

    /** The console command that creates a user. The role defaults to the plain user
        role and must be one of the two roles; this is checked before the e-mail lookup,
        and an address already in use fails too. Success inserts one user, with no
        address or phone. */
    method CreateUserCommand(email: string, password: string, name: string, role: Option<string>,
                             hash: string -> string)
      returns (status: int, userId: nat)
      requires Valid()
      modifies this`users, this`nextId
      ensures Valid()
      ensures status == CommandSuccess || status == CommandFailure
      ensures !IsRole(role.GetOr(RoleUser)) ==> status == CommandFailure
      ensures status == CommandFailure <==>
        !IsRole(role.GetOr(RoleUser)) || exists id :: id in old(users) && old(users)[id].email == email
      ensures status != CommandSuccess ==> unchanged(this)
      ensures status == CommandSuccess ==>
        && userId == old(nextId) && userId !in old(users) && nextId == old(nextId) + 1
        && users == old(users)[userId := User(email, hash(password), name, role.GetOr(RoleUser), None, None)]
    {
      userId := 0;
      var r := role.GetOr(RoleUser);
      if !IsRole(r) {
        return CommandFailure, 0;
      }
      var existing := FindUserByEmail(email);
      if existing.Some? {
        return CommandFailure, 0;
      }
      userId := InsertUser(User(email, hash(password), name, r, None, None));
      status := CommandSuccess;
    }
  }
}
