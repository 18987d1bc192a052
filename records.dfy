/** The stored entities of db.py and what their constructors default to.
    A keyword argument the caller leaves out is `None`; prices are whole
    cents. */
module Records {
  import opened Wrappers
  import opened PickUp

  /** A purchasable catalog item (table "inventory"). */
  datatype Inventory = Inventory(image: string, name: string, description: string, price: int)

  /** A category (table "category"); nothing makes its name unique. */
  datatype Category = Category(name: string, description: string)

  /** An order (table "order"): times are unset until the order is stamped. */
  datatype Order = Order(timeCreated: Option<Timestamp>, pickUpBy: Option<Timestamp>,
                         totalPrice: int, valid: bool)

  /** One row of table "orderitem": a quantity of one inventory in one order. */
  datatype OrderItem = OrderItem(id: int, numSel: int, inventoryId: int, orderId: int)

  /** One row of the inventory-category association table (no key, so a pair
      can appear more than once). */
  datatype CategoryLink = CategoryLink(inventoryId: int, categoryId: int)

  /** A line item just built by its constructor, before it is attached to its
      order and its inventory. `None` stands for the default "" the
      constructor stores when its keyword is missing. */
  datatype PendingOrderItem = PendingOrderItem(inventoryId: Option<int>, numSel: Option<int>, orderId: Option<int>)

  /** One requested line of a new order: `{inventory_id, num_sel}`. */
  datatype ItemRequest = ItemRequest(inventoryId: int, numSel: int)

  function GetOr<T>(o: Option<T>, default: T): T {
    match o
    case Some(v) => v
    case None => default
  }

  function Lookup(kwargs: map<string, int>, key: string): (r: Option<int>)
    ensures r.Some? <==> key in kwargs
    ensures r.Some? ==> r.value == kwargs[key]
  {
    if key in kwargs then Some(kwargs[key]) else None
  }

  /** `Inventory.__init__`: each text field left out is the empty string. */
  function NewInventory(image: Option<string>, name: Option<string>, description: Option<string>,
                        price: int): (inv: Inventory)
    ensures inv.image == (if image.Some? then image.value else "")
    ensures inv.name == (if name.Some? then name.value else "")
    ensures inv.description == (if description.Some? then description.value else "")
    ensures inv.price == price
  {
    Inventory(GetOr(image, ""), GetOr(name, ""), GetOr(description, ""), price)
  }

  /** `Category.__init__`: a description left out is the empty string. */
  function NewCategory(name: string, description: Option<string>): (c: Category)
    ensures c.name == name
    ensures c.description == (if description.Some? then description.value else "")
  {
    Category(name, GetOr(description, ""))
  }

  /** `Order.__init__`: a new order is unstamped, with total 0 and not valid
      unless told otherwise. */
  function NewOrder(totalPrice: Option<int>, valid: Option<bool>): (o: Order)
    ensures o.timeCreated.None? && o.pickUpBy.None?
    ensures o.totalPrice == (if totalPrice.Some? then totalPrice.value else 0)
    ensures o.valid == (valid.Some? && valid.value)
  {
    Order(None, None, GetOr(totalPrice, 0), GetOr(valid, false))
  }

  /** `Orderitem.__init__`: it reads the inventory from the keyword
      "inventroy_id" (so spelt), and the quantity and order from "num_sel" and
      "order_id". */
  function NewOrderItem(kwargs: map<string, int>): (p: PendingOrderItem)
    ensures p.inventoryId == Lookup(kwargs, "inventroy_id")
    ensures p.numSel == Lookup(kwargs, "num_sel") && p.orderId == Lookup(kwargs, "order_id")
  {
    PendingOrderItem(Lookup(kwargs, "inventroy_id"), Lookup(kwargs, "num_sel"), Lookup(kwargs, "order_id"))
  }

  /** The keywords a caller passes to `Orderitem.__init__`. */
  function OrderItemKwargs(inventoryId: int, numSel: int, orderId: int): map<string, int> {
    map["inventory_id" := inventoryId, "num_sel" := numSel, "order_id" := orderId]
  }

  /** Whatever inventory the caller names, the constructed line item has none:
      the keyword it passes is not the one the constructor reads. */
  lemma ConstructedItemHasNoInventory(inventoryId: int, numSel: int, orderId: int)
    ensures NewOrderItem(OrderItemKwargs(inventoryId, numSel, orderId)).inventoryId.None?
    ensures NewOrderItem(OrderItemKwargs(inventoryId, numSel, orderId)).numSel == Some(numSel)
    ensures NewOrderItem(OrderItemKwargs(inventoryId, numSel, orderId)).orderId == Some(orderId)
  {
    assert "inventroy_id" != "inventory_id";
    assert "inventroy_id" !in OrderItemKwargs(inventoryId, numSel, orderId);
  }

  /** Appending the line item to its order's and its inventory's collections
      sets both foreign keys; the row gets `id`. */
  function Attach(p: PendingOrderItem, id: int, orderId: int, inventoryId: int): (row: OrderItem)
    requires p.numSel.Some?
    ensures row.id == id && row.numSel == p.numSel.value
    ensures row.orderId == orderId && row.inventoryId == inventoryId
  {
    OrderItem(id, p.numSel.value, inventoryId, orderId)
  }
}
