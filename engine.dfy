/** The request handlers of app.py over an in-memory store. Each table is a
    field of `Store`: the keyed tables are maps from id to record, the
    order-item and inventory-category tables are sequences of rows in row
    order, and every table has the next id it hands out. A handler's response
    body is a `Result`; the HTTP status is not modelled. */
module Engine {
  import opened Wrappers
  import opened PickUp
  import opened Records
  import opened Tables
  import opened Views

  const OrderNotFound := "Order not found!"
  const InventoryNotFound := "Inventory not found!"
  const CategoryNotFound := "Category not found!"
  const ItemExists := "order item already exists! Use update order item instead"
  const StillSelected := "Can't delte orderitem since the number selected is larger than 0"
  /** `submit_order` spells its not-found message in lower case. */
  const SubmitNotFound := "order not found!"
  /** What `create_order` reports when the body has no "inventories" list. */
  const NotIterable := "'NoneType' object is not iterable"

  function DigitChar(d: nat): char
    requires d < 10
  {
    ('0' as int + d) as char
  }

  /** `str(n)` for a natural number. */
  function DecimalString(n: nat): (s: string)
    ensures |s| >= 1
    ensures forall i :: 0 <= i < |s| ==> '0' <= s[i] <= '9'
  {
    if n < 10 then [DigitChar(n)] else DecimalString(n / 10) + [DigitChar(n % 10)]
  }

  /** The number a string of decimal digits denotes. */
  function ParseDecimal(s: string): nat
    requires forall i :: 0 <= i < |s| ==> '0' <= s[i] <= '9'
  {
    if s == [] then 0 else ParseDecimal(s[..|s| - 1]) * 10 + (s[|s| - 1] as int - '0' as int)
  }

  lemma {:induction false} ParseDecimalString(n: nat)
    ensures ParseDecimal(DecimalString(n)) == n
  {
    if n >= 10 {
      var s := DecimalString(n);
      assert s[..|s| - 1] == DecimalString(n / 10);
      ParseDecimalString(n / 10);
    }
  }

  /** The query-string key of the `i`-th requested category: "c0", "c1", ... */
  function ArgKey(i: nat): string {
    "c" + DecimalString(i)
  }

  /** Different positions ask for different keys. */
  lemma ArgKeysDistinct(i: nat, j: nat)
    requires i != j
    ensures ArgKey(i) != ArgKey(j)
  {
    assert ArgKey(i)[1..] == DecimalString(i);
    assert ArgKey(j)[1..] == DecimalString(j);
    ParseDecimalString(i);
    ParseDecimalString(j);
  }

  /** The keys "c0" .. "c{n-1}". */
  function ArgKeys(n: nat): set<string> {
    if n == 0 then {} else ArgKeys(n - 1) + {ArgKey(n - 1)}
  }

  /** A later position's key is not among the first `n`. */
  lemma {:induction false} ArgKeyNotEarlier(n: nat, m: nat)
    requires n <= m
    ensures ArgKey(m) !in ArgKeys(n)
  {
    if n > 0 {
      ArgKeysDistinct(n - 1, m);
      ArgKeyNotEarlier(n - 1, m);
    }
  }

  /** There are `n` of them, because different positions ask for different
      keys. */
  lemma {:induction false} ArgKeysCount(n: nat)
    ensures |ArgKeys(n)| == n
  {
    if n > 0 {
      ArgKeysCount(n - 1);
      ArgKeyNotEarlier(n - 1, n - 1);
    }
  }

  /** The first `n` keys are all present when every key up to the number of
      arguments is. */
  lemma {:induction false} ArgKeysWithin(args: map<string, int>, n: nat)
    requires n <= |args|
    requires forall i :: 0 <= i < |args| ==> ArgKey(i) in args
    ensures ArgKeys(n) <= args.Keys
  {
    if n > 0 {
      ArgKeysWithin(args, n - 1);
    }
  }

  /** When each of "c0" .. "c{n-1}" is among the `n` query arguments, these
      are all of them: no argument goes unread. */
  lemma OnlyArgKeys(args: map<string, int>)
    requires forall i :: 0 <= i < |args| ==> ArgKey(i) in args
    ensures args.Keys == ArgKeys(|args|)
  {
    ArgKeysCount(|args|);
    ArgKeysWithin(args, |args|);
    var keys := ArgKeys(|args|);
    assert |args.Keys| == |args|;
    assert |args.Keys - keys| == |args.Keys| - |keys|;
  }

  /** The smallest id in [lo, hi) of a category called `name`: what
      `Category.query.filter_by(name = ..).first()` finds. */
  function FirstNamed(categories: map<int, Category>, name: string, lo: int, hi: int): (r: Option<int>)
    decreases hi - lo
    ensures r.Some? ==> lo <= r.value < hi && r.value in categories && categories[r.value].name == name
    ensures r.Some? ==> forall j :: lo <= j < r.value && j in categories ==> categories[j].name != name
    ensures r.None? ==> forall j :: lo <= j < hi && j in categories ==> categories[j].name != name
  {
    if lo >= hi then None
    else if lo in categories && categories[lo].name == name then Some(lo)
    else FirstNamed(categories, name, lo + 1, hi)
  }

  /** No two categories share a name. */
  predicate NamesUnique(categories: map<int, Category>) {
    forall i, j :: i in categories && j in categories && categories[i].name == categories[j].name ==> i == j
  }

  predicate KeysBelow<V>(m: map<int, V>, next: int) {
    forall id :: id in m ==> 1 <= id < next
  }

  /** Every row names an existing order and inventory and has an id already
      handed out. */
  predicate RowsValid(rows: seq<OrderItem>, orders: map<int, Order>, inventories: map<int, Inventory>, nextItemId: int) {
    forall j :: 0 <= j < |rows| ==> rows[j].orderId in orders && rows[j].inventoryId in inventories && 1 <= rows[j].id < nextItemId
  }

  predicate LinksValid(links: seq<CategoryLink>, categories: map<int, Category>, inventories: map<int, Inventory>) {
    forall link :: link in links ==> link.inventoryId in inventories && link.categoryId in categories
  }

  /** The running-total invariant: every order's `total_price` is the sum of
      `price * num_sel` over its rows. */
  predicate TotalsMatch(orders: map<int, Order>, rows: seq<OrderItem>, inventories: map<int, Inventory>) {
    forall o {:trigger OrderTotal(rows, inventories, o)} :: o in orders ==> orders[o].totalPrice == OrderTotal(rows, inventories, o)
  }

  /** A new inventory changes no total: every row names an inventory that
      already exists. */
  lemma TotalsAfterNewInventory(orders: map<int, Order>, rows: seq<OrderItem>, inventories: map<int, Inventory>,
                                id: int, inventory: Inventory)
    requires TotalsMatch(orders, rows, inventories)
    requires id !in inventories
    requires forall j :: 0 <= j < |rows| ==> rows[j].inventoryId in inventories
    ensures TotalsMatch(orders, rows, inventories[id := inventory])
  {
    forall o | o in orders
      ensures orders[o].totalPrice == OrderTotal(rows, inventories[id := inventory], o)
    {
      assert forall j :: 0 <= j < |rows| ==>
        Price(inventories, rows[j].inventoryId) == Price(inventories[id := inventory], rows[j].inventoryId);
      OrderTotalPrices(rows, inventories, inventories[id := inventory], o);
    }
  }

  /** A new order with total 0 and no rows keeps the invariant. */
  lemma TotalsAfterNewOrder(orders: map<int, Order>, rows: seq<OrderItem>, inventories: map<int, Inventory>, id: int)
    requires TotalsMatch(orders, rows, inventories)
    requires forall j :: 0 <= j < |rows| ==> rows[j].orderId != id
    ensures TotalsMatch(orders[id := NewOrder(None, None)], rows, inventories)
  {
    OrderTotalNoRows(rows, inventories, id);
  }

  /** Appending a row while adding its line to its order's total keeps the
      invariant. */
  lemma TotalsAfterAppend(orders: map<int, Order>, rows: seq<OrderItem>, inventories: map<int, Inventory>, row: OrderItem)
    requires TotalsMatch(orders, rows, inventories)
    requires row.orderId in orders
    ensures var order := orders[row.orderId];
      TotalsMatch(orders[row.orderId := order.(totalPrice := order.totalPrice + LineTotal(row, inventories))],
                  rows + [row], inventories)
  {
    forall o | o in orders
      ensures OrderTotal(rows + [row], inventories, o) ==
              OrderTotal(rows, inventories, o) + (if row.orderId == o then LineTotal(row, inventories) else 0)
    {
      OrderTotalAppend(rows, row, inventories, o);
    }
  }

  /** Moving one row's quantity by `diff` while moving its order's total by
      `diff * price` keeps the invariant. */
  lemma TotalsAfterUpdate(orders: map<int, Order>, rows: seq<OrderItem>, inventories: map<int, Inventory>, k: nat, diff: int)
    requires TotalsMatch(orders, rows, inventories)
    requires k < |rows| && rows[k].orderId in orders
    ensures var row := rows[k];
      var order := orders[row.orderId];
      TotalsMatch(orders[row.orderId := order.(totalPrice := order.totalPrice + diff * Price(inventories, row.inventoryId))],
                  rows[k := row.(numSel := row.numSel + diff)], inventories)
  {
    forall o | o in orders
      ensures var row := rows[k];
        OrderTotal(rows[k := row.(numSel := row.numSel + diff)], inventories, o) ==
        OrderTotal(rows, inventories, o) + (if row.orderId == o then diff * Price(inventories, row.inventoryId) else 0)
    {
      OrderTotalUpdate(rows, k, diff, inventories, o);
    }
  }

  /** Removing a row whose quantity is 0 keeps the invariant. */
  lemma TotalsAfterRemove(orders: map<int, Order>, rows: seq<OrderItem>, inventories: map<int, Inventory>, k: nat)
    requires TotalsMatch(orders, rows, inventories)
    requires k < |rows| && DeleteAllowed(rows[k].numSel)
    ensures TotalsMatch(orders, RemoveAt(rows, k), inventories)
  {
    forall o | o in orders
      ensures OrderTotal(RemoveAt(rows, k), inventories, o) == OrderTotal(rows, inventories, o)
    {
      DeleteAllowedKeepsTotals(rows, k, inventories, o);
    }
  }

  /** Deleting an order together with its rows keeps the invariant. */
  lemma TotalsAfterCascade(orders: map<int, Order>, rows: seq<OrderItem>, inventories: map<int, Inventory>, deleted: int)
    requires TotalsMatch(orders, rows, inventories)
    ensures TotalsMatch(orders - {deleted}, WithoutOrder(rows, deleted), inventories)
  {
    forall o | o in orders - {deleted}
      ensures OrderTotal(WithoutOrder(rows, deleted), inventories, o) == OrderTotal(rows, inventories, o)
    {
      OrderTotalCascade(rows, deleted, inventories, o);
    }
  }

  function ErrorOf<T>(r: Result<T>): Option<Error> {
    if r.Failure? then Some(r.error) else None
  }

  class Store {
    var inventories: map<int, Inventory>
    var categories: map<int, Category>
    var categoryLinks: seq<CategoryLink>
    var orders: map<int, Order>
    var orderItems: seq<OrderItem>
    var nextInventoryId: int
    var nextCategoryId: int
    var nextOrderId: int
    var nextItemId: int

    predicate Valid()
      reads this
    {
      && 1 <= nextInventoryId && 1 <= nextCategoryId && 1 <= nextOrderId && 1 <= nextItemId
      && KeysBelow(inventories, nextInventoryId)
      && KeysBelow(categories, nextCategoryId)
      && KeysBelow(orders, nextOrderId)
      && RowsValid(orderItems, orders, inventories, nextItemId)
      && LinksValid(categoryLinks, categories, inventories)
      && TotalsMatch(orders, orderItems, inventories)
    }

    /** The inventory and category tables are as they were. */
    twostate predicate CatalogUnchanged()
      reads this
    {
      && inventories == old(inventories) && categories == old(categories) && categoryLinks == old(categoryLinks)
      && nextInventoryId == old(nextInventoryId) && nextCategoryId == old(nextCategoryId)
    }

    /** The order and order-item tables are as they were. */
    twostate predicate OrdersUnchanged()
      reads this
    {
      && orders == old(orders) && orderItems == old(orderItems)
      && nextOrderId == old(nextOrderId) && nextItemId == old(nextItemId)
    }

    /** An empty database. */
    constructor ()
      ensures Valid()
      ensures inventories == map[] && categories == map[] && categoryLinks == []
      ensures orders == map[] && orderItems == []
      ensures nextInventoryId == 1 && nextCategoryId == 1 && nextOrderId == 1 && nextItemId == 1
    {
      inventories, categories, categoryLinks := map[], map[], [];
      orders, orderItems := map[], [];
      nextInventoryId, nextCategoryId, nextOrderId, nextItemId := 1, 1, 1, 1;
    }

    /** `create_inventory`: stores a new inventory under the next id with the
        fields the body gives and renders it; nothing is selected or
        categorised yet. */
    method CreateInventory(image: string, name: string, description: string, price: int)
      returns (v: InventoryRender)
      requires Valid()
      modifies this
      ensures Valid() && OrdersUnchanged()
      ensures var id := old(nextInventoryId);
        && id !in old(inventories)
        && inventories == old(inventories)[id := Inventory(image, name, description, price)]
        && nextInventoryId == id + 1
        && v == RenderInventory(id, inventories[id], categoryLinks, orderItems)
      ensures categories == old(categories) && categoryLinks == old(categoryLinks)
      ensures nextCategoryId == old(nextCategoryId)
      ensures v.selectedNum == 0 && v.category == 0
    {
      var id := nextInventoryId;
      var inventory := NewInventory(Some(image), Some(name), Some(description), price);
      TotalsAfterNewInventory(orders, orderItems, inventories, id, inventory);
      inventories := inventories[id := inventory];
      nextInventoryId := id + 1;
      v := RenderInventory(id, inventory, categoryLinks, orderItems);
    }

    /** `Category.query.filter_by(name = name).first()`, scanning the ids in
        order. */
    method FindCategoryByName(name: string) returns (found: Option<int>)
      ensures found == FirstNamed(categories, name, 1, nextCategoryId)
    {
      var id := 1;
      while id < nextCategoryId
        invariant FirstNamed(categories, name, id, nextCategoryId) == FirstNamed(categories, name, 1, nextCategoryId)
        decreases nextCategoryId - id
      {
        if id in categories && categories[id].name == name {
          return Some(id);
        }
        id := id + 1;
      }
      return None;
    }

    /** `assign_category`: links the inventory to the category of that name,
        creating the category only when none has the name yet. The link is
        appended even when the inventory already has it. */
    method AssignCategory(inventoryId: int, name: string, description: string) returns (r: Result<CategoryView>)
      requires Valid()
      modifies this
      ensures Valid() && OrdersUnchanged()
      ensures inventories == old(inventories) && nextInventoryId == old(nextInventoryId)
      ensures inventoryId !in old(inventories) ==> r == Failure(Error(InventoryNotFound)) && unchanged(this)
      ensures inventoryId in old(inventories) ==>
        var existing := FirstNamed(old(categories), name, 1, old(nextCategoryId));
        var categoryId := if existing.Some? then existing.value else old(nextCategoryId);
        && categories == (if existing.Some? then old(categories)
                          else old(categories)[categoryId := Category(name, description)])
        && nextCategoryId == (if existing.Some? then old(nextCategoryId) else old(nextCategoryId) + 1)
        && categoryLinks == old(categoryLinks) + [CategoryLink(inventoryId, categoryId)]
        && categoryId in categories
        && r == Success(SerializeCategory(categoryId, categories[categoryId], categoryLinks, inventories))
      ensures NamesUnique(old(categories)) ==> NamesUnique(categories)
    {
      if inventoryId !in inventories {
        r := Failure(Error(InventoryNotFound));
        return;
      }
      var found := FindCategoryByName(name);
      var categoryId: int;
      if found.Some? {
        categoryId := found.value;
      } else {
        categoryId := nextCategoryId;
        categories := categories[categoryId := NewCategory(name, Some(description))];
        nextCategoryId := nextCategoryId + 1;
      }
      categoryLinks := categoryLinks + [CategoryLink(inventoryId, categoryId)];
      r := Success(SerializeCategory(categoryId, categories[categoryId], categoryLinks, inventories));
    }

    /** `get_categories`: reads the ids under "c0" .. "c{n-1}", n being the
        number of query arguments, then serialises each category in that
        order; the first missing key, or else the first missing category,
        fails the request. */
    method GetCategories(args: map<string, int>) returns (r: Result<seq<CategoryView>>)
      requires Valid()
      ensures (exists i :: 0 <= i < |args| && ArgKey(i) !in args) ==>
        exists i :: 0 <= i < |args| && ArgKey(i) !in args && (forall j :: 0 <= j < i ==> ArgKey(j) in args) &&
          r == Failure(BadRequestKey(ArgKey(i)))
      ensures (forall i :: 0 <= i < |args| ==> ArgKey(i) in args) ==>
        && args.Keys == ArgKeys(|args|)
        && (r.Success? <==> forall i :: 0 <= i < |args| ==> args[ArgKey(i)] in categories)
        && (r.Failure? ==> r == Failure(Error(CategoryNotFound)))
        && (r.Success? ==> |r.value| == |args|)
        && (r.Success? ==> forall i :: 0 <= i < |args| ==>
              (&& args[ArgKey(i)] in categories
               && r.value[i] == SerializeCategory(args[ArgKey(i)], categories[args[ArgKey(i)]], categoryLinks, inventories)))
    {
      var ids: seq<int> := [];
      var i := 0;
      while i < |args|
        invariant 0 <= i <= |args|
        invariant |ids| == i
        invariant forall j :: 0 <= j < i ==> ArgKey(j) in args && ids[j] == args[ArgKey(j)]
      {
        var key := ArgKey(i);
        if key !in args {
          r := Failure(BadRequestKey(key));
          return;
        }
        ids := ids + [args[key]];
        i := i + 1;
      }
      OnlyArgKeys(args);
      var views: seq<CategoryView> := [];
      var k := 0;
      while k < |ids|
        invariant 0 <= k <= |ids|
        invariant |views| == k
        invariant forall j :: 0 <= j < k ==>
          (ids[j] in categories && views[j] == SerializeCategory(ids[j], categories[ids[j]], categoryLinks, inventories))
      {
        if ids[k] !in categories {
          r := Failure(Error(CategoryNotFound));
          return;
        }
        views := views + [SerializeCategory(ids[k], categories[ids[k]], categoryLinks, inventories)];
        k := k + 1;
      }
      r := Success(views);
    }

    /** `Orderitem.query.filter_by(order_id = .., inventory_id = ..).first()`. */
    method FindOrderItem(orderId: int, inventoryId: int) returns (found: Option<nat>)
      ensures found == PairIndex(orderItems, orderId, inventoryId)
    {
      var i := 0;
      while i < |orderItems|
        invariant 0 <= i <= |orderItems|
        invariant forall j :: 0 <= j < i ==> !(orderItems[j].orderId == orderId && orderItems[j].inventoryId == inventoryId)
      {
        if orderItems[i].orderId == orderId && orderItems[i].inventoryId == inventoryId {
          match PairIndex(orderItems, orderId, inventoryId)
          case None =>
          case Some(m) => assert !(m < i) && !(i < m);
          return Some(i);
        }
        i := i + 1;
      }
      return None;
    }

    /** What creating a line item did: it fails on a missing order, then on a
        missing inventory, changing nothing; otherwise it appends the row
        under the next id and adds `price * num_sel` to the order's total. */
    twostate predicate ItemCreated(orderId: int, inventoryId: int, numSel: int, new failure: Option<Error>)
      reads this
    {
      && CatalogUnchanged() && nextOrderId == old(nextOrderId)
      && (orderId !in old(orders) ==>
            failure == Some(Error(OrderNotFound)) && OrdersUnchanged())
      && (orderId in old(orders) && inventoryId !in old(inventories) ==>
            failure == Some(Error(InventoryNotFound)) && OrdersUnchanged())
      && (orderId in old(orders) && inventoryId in old(inventories) ==>
            var row := OrderItem(old(nextItemId), numSel, inventoryId, orderId);
            var order := old(orders)[orderId];
            && failure.None?
            && orderItems == old(orderItems) + [row]
            && nextItemId == old(nextItemId) + 1
            && orders == old(orders)[orderId := order.(totalPrice := order.totalPrice + LineTotal(row, old(inventories)))])
    }

    /** `create_orderitem`. */
    method CreateOrderItem(inventoryId: int, numSel: int, orderId: int) returns (r: Result<OrderItem>)
      requires Valid()
      modifies this
      ensures Valid()
      ensures ItemCreated(orderId, inventoryId, numSel, ErrorOf(r))
      ensures r.Success? ==> r.value == OrderItem(old(nextItemId), numSel, inventoryId, orderId)
      ensures r.Success? ==>
        && ItemsOfOrder(orderItems, orderId) == ItemsOfOrder(old(orderItems), orderId) + [r.value]
        && ItemsOfInventory(orderItems, inventoryId) == ItemsOfInventory(old(orderItems), inventoryId) + [r.value]
    {
      if orderId !in orders {
        r := Failure(Error(OrderNotFound));
        return;
      }
      if inventoryId !in inventories {
        r := Failure(Error(InventoryNotFound));
        return;
      }
      var pending := NewOrderItem(OrderItemKwargs(inventoryId, numSel, orderId));
      ConstructedItemHasNoInventory(inventoryId, numSel, orderId);
      // Appending to `order.order_items` and `inventory.order_items` sets both keys.
      var row := Attach(pending, nextItemId, orderId, inventoryId);
      var price := inventories[inventoryId].price * numSel;
      assert price == LineTotal(row, inventories);
      var order := orders[orderId];
      TotalsAfterAppend(orders, orderItems, inventories, row);
      orders := orders[orderId := order.(totalPrice := order.totalPrice + price)];
      AppendJoinsCollections(orderItems, row, orderId);
      orderItems := orderItems + [row];
      nextItemId := nextItemId + 1;
      r := Success(row);
    }

    /** `simlpe_create_orderitem`: `create_orderitem` on one requested line;
        it reports only whether that failed. */
    method SimpleCreateOrderItem(orderId: int, request: ItemRequest) returns (failure: Option<Error>)
      requires Valid()
      modifies this
      ensures Valid()
      ensures ItemCreated(orderId, request.inventoryId, request.numSel, failure)
      ensures failure.None? <==> orderId in old(orders) && request.inventoryId in old(inventories)
    {
      var r := CreateOrderItem(request.inventoryId, request.numSel, orderId);
      failure := ErrorOf(r);
    }

    /** `add_orderitem_to_order`: refuses a second line for the same
        (order, inventory) pair before anything else is checked. */
    method AddOrderItemToOrder(orderId: int, inventoryId: int, numSel: int) returns (r: Result<ItemView>)
      requires Valid()
      modifies this
      ensures Valid()
      ensures PairIndex(old(orderItems), orderId, inventoryId).Some? ==>
        r == Failure(Error(ItemExists)) && unchanged(this)
      ensures PairIndex(old(orderItems), orderId, inventoryId).None? ==>
        && ItemCreated(orderId, inventoryId, numSel, ErrorOf(r))
        && (r.Success? ==> r.value == ItemView(old(nextItemId), numSel, inventoryId))
    {
      var existing := FindOrderItem(orderId, inventoryId);
      if existing.Some? {
        r := Failure(Error(ItemExists));
        return;
      }
      var created := CreateOrderItem(inventoryId, numSel, orderId);
      if created.Failure? {
        r := Failure(created.error);
      } else {
        r := Success(SerializeItem(created.value));
      }
    }

    /** The loop of `create_order`: creates the requested lines of order
        `orderId` one after the other and stops at the first that fails,
        keeping those created before it. */
    method ApplyRequests(orderId: int, reqs: seq<ItemRequest>) returns (failure: Option<Error>)
      requires Valid() && orderId in orders
      modifies this
      ensures Valid() && CatalogUnchanged() && nextOrderId == old(nextOrderId)
      ensures var n := FirstMissing(reqs, inventories);
        var rows := RequestedRows(reqs[..n], old(nextItemId), orderId);
        var order := old(orders)[orderId];
        && failure == (if n < |reqs| then Some(Error(InventoryNotFound)) else None)
        && orderItems == old(orderItems) + rows
        && nextItemId == old(nextItemId) + n
        && orders == old(orders)[orderId := order.(totalPrice := order.totalPrice + RequestTotal(reqs[..n], inventories))]
    {
      var firstItem := nextItemId;
      var i := 0;
      while i < |reqs|
        invariant 0 <= i <= |reqs|
        invariant Valid()
        invariant CatalogUnchanged()
        invariant nextOrderId == old(nextOrderId)
        invariant i <= FirstMissing(reqs, old(inventories))
        invariant orderItems == old(orderItems) + RequestedRows(reqs[..i], firstItem, orderId)
        invariant nextItemId == firstItem + i
        invariant orders == old(orders)[orderId := old(orders)[orderId].(totalPrice :=
                    old(orders)[orderId].totalPrice + RequestTotal(reqs[..i], inventories))]
      {
        failure := SimpleCreateOrderItem(orderId, reqs[i]);
        if failure.Some? {
          assert FirstMissing(reqs, inventories) == i;
          return;
        }
        var row := OrderItem(firstItem + i, reqs[i].numSel, reqs[i].inventoryId, orderId);
        assert reqs[..i + 1][..i] == reqs[..i];
        assert RequestedRows(reqs[..i + 1], firstItem, orderId) == RequestedRows(reqs[..i], firstItem, orderId) + [row];
        i := i + 1;
      }
      assert FirstMissing(reqs, inventories) == |reqs|;
      failure := None;
    }

    /** The first step of `create_order`: a fresh order (total 0, not valid,
        no times) under the next id, with no rows yet. */
    method OpenOrder() returns (id: int)
      requires Valid()
      modifies this
      ensures Valid() && CatalogUnchanged()
      ensures id == old(nextOrderId) && id !in old(orders) && nextOrderId == id + 1
      ensures orders == old(orders)[id := NewOrder(None, None)]
      ensures orderItems == old(orderItems) && nextItemId == old(nextItemId)
      ensures ItemsOfOrder(orderItems, id) == []
    {
      id := nextOrderId;
      NoRowsOfOrder(orderItems, id);
      TotalsAfterNewOrder(orders, orderItems, inventories, id);
      orders := orders[id := NewOrder(None, None)];
      nextOrderId := id + 1;
    }

    /** The common tail of `create_order` and `submit_order`: the order gets
        `now` as its creation time, the pick-up time derived from it, and
        becomes valid; its total and rows stay. */
    method Stamp(orderId: int, now: Timestamp)
      requires Valid() && ValidTime(now) && orderId in orders
      modifies this
      ensures Valid() && CatalogUnchanged()
      ensures orders == old(orders)[orderId := old(orders)[orderId].(timeCreated := Some(now),
                                                                  pickUpBy := Some(PickUpTime(now)), valid := true)]
      ensures orderItems == old(orderItems) && nextOrderId == old(nextOrderId) && nextItemId == old(nextItemId)
    {
      var order := orders[orderId];
      orders := orders[orderId := order.(timeCreated := Some(now), pickUpBy := Some(PickUpTime(now)), valid := true)];
    }

    /** `create_order` once the request has a list of lines: a fresh order,
        the lines applied in order up to the first that names a missing
        inventory, and, when none does, the stamp. */
    method CreateOrderFrom(reqs: seq<ItemRequest>, now: Timestamp) returns (r: Result<OrderSummary>)
      requires Valid() && ValidTime(now)
      modifies this
      ensures Valid() && CatalogUnchanged()
      ensures old(nextOrderId) !in old(orders) && nextOrderId == old(nextOrderId) + 1
      ensures var applied := reqs[..FirstMissing(reqs, inventories)];
        && orderItems == old(orderItems) + RequestedRows(applied, old(nextItemId), old(nextOrderId))
        && ItemsOfOrder(orderItems, old(nextOrderId)) == RequestedRows(applied, old(nextItemId), old(nextOrderId))
        && nextItemId == old(nextItemId) + |applied|
      ensures FirstMissing(reqs, inventories) < |reqs| ==>
        var applied := reqs[..FirstMissing(reqs, inventories)];
        && r == Failure(Error(InventoryNotFound))
        && orders == old(orders)[old(nextOrderId) := Order(None, None, RequestTotal(applied, inventories), false)]
      ensures FirstMissing(reqs, inventories) == |reqs| ==>
        && orders == old(orders)[old(nextOrderId) :=
                       Order(Some(now), Some(PickUpTime(now)), RequestTotal(reqs, inventories), true)]
        && r == Success(SummarizeOrder(old(nextOrderId), orders[old(nextOrderId)], orderItems, inventories))
    {
      var id := OpenOrder();
      r := FillOrder(id, reqs, now);
    }

    /** The rest of `create_order` for the fresh order `id`: its lines are
        applied up to the first that names a missing inventory and, when none
        does, it is stamped. */
    method FillOrder(id: int, reqs: seq<ItemRequest>, now: Timestamp) returns (r: Result<OrderSummary>)
      requires Valid() && ValidTime(now)
      requires id in orders && orders[id] == Order(None, None, 0, false) && ItemsOfOrder(orderItems, id) == []
      modifies this
      ensures Valid() && CatalogUnchanged() && nextOrderId == old(nextOrderId)
      ensures var applied := reqs[..FirstMissing(reqs, inventories)];
        && orderItems == old(orderItems) + RequestedRows(applied, old(nextItemId), id)
        && ItemsOfOrder(orderItems, id) == RequestedRows(applied, old(nextItemId), id)
        && nextItemId == old(nextItemId) + |applied|
      ensures FirstMissing(reqs, inventories) < |reqs| ==>
        var applied := reqs[..FirstMissing(reqs, inventories)];
        && r == Failure(Error(InventoryNotFound))
        && orders == old(orders)[id := Order(None, None, RequestTotal(applied, inventories), false)]
      ensures FirstMissing(reqs, inventories) == |reqs| ==>
        && orders == old(orders)[id := Order(Some(now), Some(PickUpTime(now)), RequestTotal(reqs, inventories), true)]
        && r == Success(SummarizeOrder(id, orders[id], orderItems, inventories))
    {
      ghost var n := FirstMissing(reqs, inventories);
      var failure := ApplyRequests(id, reqs);
      NewOrderRows(old(orderItems), reqs[..n], old(nextItemId), id);
      if failure.Some? {
        r := Failure(failure.value);
        return;
      }
      assert reqs[..n] == reqs;
      ghost var total := orders[id].totalPrice;
      assert total == RequestTotal(reqs, inventories);
      Stamp(id, now);
      assert orders == old(orders)[id := Order(Some(now), Some(PickUpTime(now)), total, true)];
      r := Success(SummarizeOrder(id, orders[id], orderItems, inventories));
    }

    /** `create_order`: stores a fresh order (total 0, not valid, whatever the
        body says), then applies the requested lines in order. Without a list
        of lines the order stays stored and the iteration fails. The first
        line naming a missing inventory ends the request with its error,
        leaving the order stored, not valid and holding the lines applied so
        far. Otherwise the order is stamped with `now` and its pick-up time
        and becomes valid. */
    method CreateOrder(requested: Option<seq<ItemRequest>>, now: Timestamp) returns (r: Result<OrderSummary>)
      requires Valid() && ValidTime(now)
      modifies this
      ensures Valid() && CatalogUnchanged()
      ensures old(nextOrderId) !in old(orders) && nextOrderId == old(nextOrderId) + 1
      ensures requested.None? ==>
        && r == Failure(Error(NotIterable))
        && orders == old(orders)[old(nextOrderId) := NewOrder(None, None)]
        && orderItems == old(orderItems) && nextItemId == old(nextItemId)
      ensures requested.Some? ==>
        var applied := requested.value[..FirstMissing(requested.value, inventories)];
        && orderItems == old(orderItems) + RequestedRows(applied, old(nextItemId), old(nextOrderId))
        && ItemsOfOrder(orderItems, old(nextOrderId)) == RequestedRows(applied, old(nextItemId), old(nextOrderId))
        && nextItemId == old(nextItemId) + |applied|
      ensures requested.Some? && FirstMissing(requested.value, inventories) < |requested.value| ==>
        var applied := requested.value[..FirstMissing(requested.value, inventories)];
        && r == Failure(Error(InventoryNotFound))
        && orders == old(orders)[old(nextOrderId) := Order(None, None, RequestTotal(applied, inventories), false)]
      ensures requested.Some? && FirstMissing(requested.value, inventories) == |requested.value| ==>
        && orders == old(orders)[old(nextOrderId) :=
                       Order(Some(now), Some(PickUpTime(now)), RequestTotal(requested.value, inventories), true)]
        && r == Success(SummarizeOrder(old(nextOrderId), orders[old(nextOrderId)], orderItems, inventories))
    {
      if requested.None? {
        var id := OpenOrder();
        r := Failure(Error(NotIterable));
      } else {
        r := CreateOrderFrom(requested.value, now);
      }
    }

    /** `submit_order`: stamps the order with `now` and its pick-up time and
        makes it valid. The user name is assigned to an attribute that is not
        a column, so nothing keeps it. */
    method SubmitOrder(orderId: int, userName: Option<string>, now: Timestamp) returns (r: Result<OrderView>)
      requires Valid() && ValidTime(now)
      modifies this
      ensures Valid() && CatalogUnchanged()
      ensures orderItems == old(orderItems) && nextOrderId == old(nextOrderId) && nextItemId == old(nextItemId)
      ensures orderId !in old(orders) ==> r == Failure(Error(SubmitNotFound)) && orders == old(orders)
      ensures orderId in old(orders) ==>
        && orders == old(orders)[orderId := old(orders)[orderId].(timeCreated := Some(now),
                                                                  pickUpBy := Some(PickUpTime(now)), valid := true)]
        && r == Success(SerializeOrder(orderId, orders[orderId], orderItems))
    {
      if orderId !in orders {
        r := Failure(Error(SubmitNotFound));
        return;
      }
      Stamp(orderId, now);
      r := Success(SerializeOrder(orderId, orders[orderId], orderItems));
    }

    /** `delete_order`: removes the order and, by cascade, every row of it;
        the response shows the order as it was. */
    method DeleteOrder(orderId: int) returns (r: Result<OrderView>)
      requires Valid()
      modifies this
      ensures Valid() && CatalogUnchanged()
      ensures nextOrderId == old(nextOrderId) && nextItemId == old(nextItemId)
      ensures orderId !in old(orders) ==> r == Failure(Error(OrderNotFound)) && OrdersUnchanged()
      ensures orderId in old(orders) ==>
        && orders == old(orders) - {orderId}
        && orderItems == WithoutOrder(old(orderItems), orderId)
        && r == Success(SerializeOrder(orderId, old(orders)[orderId], old(orderItems)))
    {
      if orderId !in orders {
        r := Failure(Error(OrderNotFound));
        return;
      }
      var order := orders[orderId];
      var before := orderItems;
      r := Success(SerializeOrder(orderId, order, before));
      TotalsAfterCascade(orders, orderItems, inventories, orderId);
      WithoutOrderMembers(orderItems, orderId);
      orders := orders - {orderId};
      orderItems := WithoutOrder(orderItems, orderId);
    }

    /** `delete_orderitem`, with the guard refusing any quantity other than
        0: removes the pair's first row, and the order too when that leaves it
        no rows. The response shows the order with its remaining rows. */
    method DeleteOrderItem(orderId: int, inventoryId: int) returns (r: Result<OrderView>)
      requires Valid()
      modifies this
      ensures Valid() && CatalogUnchanged()
      ensures nextOrderId == old(nextOrderId) && nextItemId == old(nextItemId)
      ensures orderId !in old(orders) ==> r == Failure(Error(OrderNotFound)) && OrdersUnchanged()
      ensures orderId in old(orders) ==>
        match PairIndex(old(orderItems), orderId, inventoryId)
        case None => r == Failure(Error(OrderNotFound)) && OrdersUnchanged()
        case Some(k) =>
          && (!DeleteAllowed(old(orderItems)[k].numSel) ==>
                r == Failure(Error(StillSelected)) && OrdersUnchanged())
          && (DeleteAllowed(old(orderItems)[k].numSel) ==>
                && orderItems == RemoveAt(old(orderItems), k)
                && orders == (if ItemsOfOrder(orderItems, orderId) == [] then old(orders) - {orderId} else old(orders))
                && r == Success(SerializeOrder(orderId, old(orders)[orderId], orderItems)))
    {
      if orderId !in orders {
        r := Failure(Error(OrderNotFound));
        return;
      }
      var found := FindOrderItem(orderId, inventoryId);
      if found.None? {
        r := Failure(Error(OrderNotFound));
        return;
      }
      var k := found.value;
      if !DeleteAllowed(orderItems[k].numSel) {
        r := Failure(Error(StillSelected));
        return;
      }
      var order := orders[orderId];
      TotalsAfterRemove(orders, orderItems, inventories, k);
      orderItems := RemoveAt(orderItems, k);
      if ItemsOfOrder(orderItems, orderId) == [] {
        ItemsOfOrderEmpty(orderItems, orderId);
        NoRowsOfOrder(orderItems, orderId);
        var deleted := DeleteOrder(orderId);
      }
      r := Success(SerializeOrder(orderId, order, orderItems));
    }

    /** What `update_orderitem` did: it fails on a missing order, a missing
        inventory or a missing row, changing nothing. Otherwise it moves the
        pair's first row's quantity by `diff` and the order's total by
        `diff * price` together; a quantity that reaches 0 deletes the row,
        and the order with it when that was its last row. */
    twostate predicate Updated(orderId: int, inventoryId: int, diff: int, new r: Result<OrderView>)
      reads this
    {
      && CatalogUnchanged() && nextOrderId == old(nextOrderId) && nextItemId == old(nextItemId)
      && (orderId !in old(orders) ==> r == Failure(Error(OrderNotFound)) && OrdersUnchanged())
      && (orderId in old(orders) && inventoryId !in old(inventories) ==>
            r == Failure(Error(InventoryNotFound)) && OrdersUnchanged())
      && (orderId in old(orders) && inventoryId in old(inventories) ==>
            match PairIndex(old(orderItems), orderId, inventoryId)
            case None => r == Failure(Error(OrderNotFound)) && OrdersUnchanged()
            case Some(k) => k < |old(orderItems)| && LineUpdated(orderId, inventoryId, k, diff, r))
    }

    /** The found case of `update_orderitem`, for row `k`: its quantity moves
        by `diff` and the order's total by `diff * price`; a quantity that
        reaches 0 deletes the row, and the order with it when that was its
        last row. The response shows the order with its new total. */
    twostate predicate LineUpdated(orderId: int, inventoryId: int, k: nat, diff: int, new r: Result<OrderView>)
      requires k < |old(orderItems)|
      requires orderId in old(orders) && inventoryId in old(inventories)
      reads this
    {
      var row := old(orderItems)[k];
      var updated := old(orderItems)[k := row.(numSel := row.numSel + diff)];
      var total := old(orders)[orderId].totalPrice + diff * old(inventories)[inventoryId].price;
      var order := old(orders)[orderId].(totalPrice := total);
      && orderItems == (if row.numSel + diff == 0 then RemoveAt(updated, k) else updated)
      && orders == (if ItemsOfOrder(orderItems, orderId) == [] then old(orders) - {orderId}
                    else old(orders)[orderId := order])
      && r == Success(SerializeOrder(orderId, order, orderItems))
    }

    /** The update step of `update_orderitem`: row `k`'s quantity and its
        order's total move together, by `diff` and by `diff` times the
        inventory's price. Returns the order as updated. */
    method AdjustLine(k: nat, diff: int) returns (order: Order)
      requires Valid() && k < |orderItems|
      modifies this
      ensures Valid() && CatalogUnchanged()
      ensures nextOrderId == old(nextOrderId) && nextItemId == old(nextItemId)
      ensures var row := old(orderItems)[k];
        var before := old(orders)[row.orderId];
        && order == before.(totalPrice := before.totalPrice + diff * Price(inventories, row.inventoryId))
        && orderItems == old(orderItems)[k := row.(numSel := row.numSel + diff)]
        && orders == old(orders)[row.orderId := order]
    {
      var row := orderItems[k];
      TotalsAfterUpdate(orders, orderItems, inventories, k, diff);
      order := orders[row.orderId].(totalPrice := orders[row.orderId].totalPrice + diff * Price(inventories, row.inventoryId));
      orderItems := orderItems[k := row.(numSel := row.numSel + diff)];
      orders := orders[row.orderId := order];
    }

    /** `update_orderitem`. */
    method UpdateOrderItem(orderId: int, inventoryId: int, diff: int) returns (r: Result<OrderView>)
      requires Valid()
      modifies this
      ensures Valid() && Updated(orderId, inventoryId, diff, r)
    {
      if orderId !in orders {
        r := Failure(Error(OrderNotFound));
        return;
      }
      if inventoryId !in inventories {
        r := Failure(Error(InventoryNotFound));
        return;
      }
      var found := FindOrderItem(orderId, inventoryId);
      if found.None? {
        r := Failure(Error(OrderNotFound));
        return;
      }
      r := UpdateLine(orderId, inventoryId, found.value, diff);
    }

    /** `update_orderitem` once row `k` is known to be the pair's first row. */
    method UpdateLine(orderId: int, inventoryId: int, k: nat, diff: int) returns (r: Result<OrderView>)
      requires Valid() && orderId in orders && inventoryId in inventories
      requires PairIndex(orderItems, orderId, inventoryId) == Some(k)
      modifies this
      ensures Valid() && CatalogUnchanged() && nextOrderId == old(nextOrderId) && nextItemId == old(nextItemId)
      ensures LineUpdated(orderId, inventoryId, k, diff, r)
    {
      var row := orderItems[k];
      var before := orderItems;
      var order := AdjustLine(k, diff);
      if row.numSel + diff == 0 {
        PairIndexUpdate(before, k, row.numSel + diff, orderId, inventoryId);
        ghost var mid := orders;
        var deleted := DeleteOrderItem(orderId, inventoryId);
        assert mid - {orderId} == old(orders) - {orderId};
      } else {
        ItemsOfOrderEmpty(orderItems, orderId);
        assert orderItems[k].orderId == orderId;
      }
      r := Success(SerializeOrder(orderId, order, orderItems));
    }

    /** `increase_orderitem`: an update by +1. */
    method IncreaseOrderItem(orderId: int, inventoryId: int) returns (r: Result<OrderView>)
      requires Valid()
      modifies this
      ensures Valid() && Updated(orderId, inventoryId, 1, r)
    {
      r := UpdateOrderItem(orderId, inventoryId, 1);
    }

    /** `decrease_orderitem`: an update by -1. */
    method DecreaseOrderItem(orderId: int, inventoryId: int) returns (r: Result<OrderView>)
      requires Valid()
      modifies this
      ensures Valid() && Updated(orderId, inventoryId, -1, r)
    {
      r := UpdateOrderItem(orderId, inventoryId, -1);
    }
  }
}
