/** The dictionaries db.py's `serialize*` methods build, as records. A time
    is kept as the timestamp (or `None`) that `str()` would print. */
module Views {
  import opened Wrappers
  import opened PickUp
  import opened Records
  import opened Tables

  /** `Orderitem.serialize`. */
  datatype ItemView = ItemView(id: int, numSel: int, inventoryId: int)

  /** `Orderitem.serialize_for_order`. */
  datatype PickUpItemView = PickUpItemView(image: string, name: string, selectedNum: int)

  /** `Order.serialize`. */
  datatype OrderView = OrderView(id: int, timeCreated: Option<Timestamp>, pickUpBy: Option<Timestamp>,
                                 totalPrice: int, valid: bool, orderItems: seq<ItemView>)

  /** `Order.simple_serialize`. */
  datatype OrderSummary = OrderSummary(id: int, timeCreated: Option<Timestamp>, pickUpBy: Option<Timestamp>,
                                       totalPrice: int, valid: bool, orderItems: seq<PickUpItemView>)

  /** `Inventory.serialize_for_render`. */
  datatype InventoryRender = InventoryRender(id: int, image: string, name: string, description: string,
                                             price: int, category: int, selectedNum: int)

  /** `Inventory.serialize_for_category`. */
  datatype InventoryBrief = InventoryBrief(id: int, image: string, name: string, description: string, price: int)

  /** `Category.serialize`. */
  datatype CategoryView = CategoryView(id: int, name: string, description: string, inventories: seq<InventoryBrief>)

  function SerializeItem(row: OrderItem): ItemView {
    ItemView(row.id, row.numSel, row.inventoryId)
  }

  /** The first element of a filter is the first element that passes. */
  lemma {:induction false} FilterFirst<T(!new)>(s: seq<T>, p: T -> bool)
    ensures Filter(s, p) == [] <==> FirstWhere(s, p).None?
    ensures FirstWhere(s, p).Some? ==> Filter(s, p)[0] == s[FirstWhere(s, p).value]
  {
    if s != [] && !p(s[0]) {
      FilterFirst(s[1..], p);
    }
  }

  /** `Order.serialize`: the order's fields and one entry per row of the order,
      in table order. */
  function SerializeOrder(orderId: int, order: Order, rows: seq<OrderItem>): (v: OrderView)
    ensures v.id == orderId && v.totalPrice == order.totalPrice && v.valid == order.valid
    ensures v.timeCreated == order.timeCreated && v.pickUpBy == order.pickUpBy
    ensures |v.orderItems| == |ItemsOfOrder(rows, orderId)|
  {
    OrderView(orderId, order.timeCreated, order.pickUpBy, order.totalPrice, order.valid,
              SerializeItems(ItemsOfOrder(rows, orderId)))
  }

  /** One `serialize` entry per row, in order. */
  function SerializeItems(items: seq<OrderItem>): (entries: seq<ItemView>)
    ensures |entries| == |items|
    ensures forall k :: 0 <= k < |items| ==> entries[k] == SerializeItem(items[k])
  {
    if items == [] then [] else [SerializeItem(items[0])] + SerializeItems(items[1..])
  }

  /** `Order.serialize` lists exactly the order's current rows: every row of
      the order has its entry, and every entry is the entry of a row of the
      order. */
  lemma SerializeOrderListsItsItems(orderId: int, order: Order, rows: seq<OrderItem>)
    ensures forall row :: row in rows && row.orderId == orderId ==>
      SerializeItem(row) in SerializeOrder(orderId, order, rows).orderItems
    ensures forall k :: 0 <= k < |SerializeOrder(orderId, order, rows).orderItems| ==>
      exists row :: row in rows && row.orderId == orderId &&
        SerializeOrder(orderId, order, rows).orderItems[k] == SerializeItem(row)
  {
    var v := SerializeOrder(orderId, order, rows);
    var items := ItemsOfOrder(rows, orderId);
    ItemsOfOrderMembers(rows, orderId);
    forall row | row in rows && row.orderId == orderId
      ensures SerializeItem(row) in v.orderItems
    {
      assert row in items;
      var k :| 0 <= k < |items| && items[k] == row;
      assert v.orderItems[k] == SerializeItem(row);
    }
    forall k | 0 <= k < |v.orderItems|
      ensures exists row :: row in rows && row.orderId == orderId && v.orderItems[k] == SerializeItem(row)
    {
      var row := items[k];
      assert row in items;
      assert v.orderItems[k] == SerializeItem(row);
      assert row in rows && row.orderId == orderId && v.orderItems[k] == SerializeItem(row);
    }
  }

  /** `Orderitem.serialize_for_order`: the referenced inventory's image and
      name, with the row's quantity. */
  function SerializeForOrder(row: OrderItem, inventories: map<int, Inventory>): (v: PickUpItemView)
    requires row.inventoryId in inventories
    ensures v.image == inventories[row.inventoryId].image
    ensures v.name == inventories[row.inventoryId].name
    ensures v.selectedNum == row.numSel
  {
    var inventory := inventories[row.inventoryId];
    PickUpItemView(inventory.image, inventory.name, row.numSel)
  }

  /** `Order.simple_serialize`: like `SerializeOrder`, with each row shown
      through its inventory. It fails in the source when a row's inventory is
      gone. */
  function SummarizeOrder(orderId: int, order: Order, rows: seq<OrderItem>, inventories: map<int, Inventory>): (v: OrderSummary)
    requires forall j :: 0 <= j < |rows| && rows[j].orderId == orderId ==> rows[j].inventoryId in inventories
    ensures v.id == orderId && v.totalPrice == order.totalPrice && v.valid == order.valid
    ensures v.timeCreated == order.timeCreated && v.pickUpBy == order.pickUpBy
    ensures |v.orderItems| == |ItemsOfOrder(rows, orderId)|
    ensures forall k :: 0 <= k < |v.orderItems| ==>
      var row := ItemsOfOrder(rows, orderId)[k];
      row.inventoryId in inventories &&
      v.orderItems[k] == PickUpItemView(inventories[row.inventoryId].image, inventories[row.inventoryId].name, row.numSel)
  {
    var items := ItemsOfOrder(rows, orderId);
    ItemsOfOrderMembers(rows, orderId);
    assert forall k :: 0 <= k < |items| ==> items[k] in rows && items[k].orderId == orderId;
    OrderSummary(orderId, order.timeCreated, order.pickUpBy, order.totalPrice, order.valid,
                 SummarizeItems(items, inventories))
  }

  /** One `serialize_for_order` entry per row, in order. */
  function SummarizeItems(items: seq<OrderItem>, inventories: map<int, Inventory>): (entries: seq<PickUpItemView>)
    requires forall k :: 0 <= k < |items| ==> items[k].inventoryId in inventories
    ensures |entries| == |items|
    ensures forall k :: 0 <= k < |items| ==> entries[k] == SerializeForOrder(items[k], inventories)
  {
    if items == [] then []
    else [SerializeForOrder(items[0], inventories)] + SummarizeItems(items[1..], inventories)
  }

  /** `Inventory.serialize_for_render`: `selectedNum` is the quantity of the
      first row naming this inventory and `category` the first category linked
      to it, each 0 when there is none. */
  function RenderInventory(inventoryId: int, inventory: Inventory, links: seq<CategoryLink>, rows: seq<OrderItem>): (v: InventoryRender)
    ensures v.id == inventoryId && v.image == inventory.image && v.name == inventory.name
    ensures v.description == inventory.description && v.price == inventory.price
    ensures (forall j :: 0 <= j < |rows| ==> rows[j].inventoryId != inventoryId) ==> v.selectedNum == 0
    ensures forall k :: (0 <= k < |rows| && rows[k].inventoryId == inventoryId &&
                         (forall j :: 0 <= j < k ==> rows[j].inventoryId != inventoryId))
                        ==> v.selectedNum == rows[k].numSel
    ensures (forall j :: 0 <= j < |links| ==> links[j].inventoryId != inventoryId) ==> v.category == 0
    ensures forall k :: (0 <= k < |links| && links[k].inventoryId == inventoryId &&
                         (forall j :: 0 <= j < k ==> links[j].inventoryId != inventoryId))
                        ==> v.category == links[k].categoryId
  {
    var items := ItemsOfInventory(rows, inventoryId);
    var categories := Filter(links, LinkOfInventory(inventoryId));
    FirstOfInventory(rows, inventoryId);
    FilterFirst(links, LinkOfInventory(inventoryId));
    var selectedNum := if |items| > 0 then items[0].numSel else 0;
    var category := if |categories| > 0 then categories[0].categoryId else 0;
    InventoryRender(inventoryId, inventory.image, inventory.name, inventory.description, inventory.price,
                    category, selectedNum)
  }

  /** `Inventory.serialize_for_category`. */
  function Brief(inventoryId: int, inventories: map<int, Inventory>): InventoryBrief
    requires inventoryId in inventories
  {
    var inventory := inventories[inventoryId];
    InventoryBrief(inventoryId, inventory.image, inventory.name, inventory.description, inventory.price)
  }

  /** `Category.serialize`: the category's fields and one entry per association
      row of the category, in table order, each the linked inventory. */
  function SerializeCategory(categoryId: int, category: Category, links: seq<CategoryLink>,
                             inventories: map<int, Inventory>): (v: CategoryView)
    requires forall link :: link in links && link.categoryId == categoryId ==> link.inventoryId in inventories
    ensures v.id == categoryId && v.name == category.name && v.description == category.description
    ensures |v.inventories| == |Filter(links, LinkOfCategory(categoryId))|
    ensures forall k :: 0 <= k < |v.inventories| ==>
      var link := Filter(links, LinkOfCategory(categoryId))[k];
      link.inventoryId in inventories && v.inventories[k] == Brief(link.inventoryId, inventories)
  {
    var mine := Filter(links, LinkOfCategory(categoryId));
    assert forall k :: 0 <= k < |mine| ==> mine[k] in links && mine[k].categoryId == categoryId;
    var entries := seq(|mine|, k requires 0 <= k < |mine| => Brief(mine[k].inventoryId, inventories));
    CategoryView(categoryId, category.name, category.description, entries)
  }
}
