/** The tables as the queries see them: a table is its rows in row order, a
    relationship collection (`order.order_items`, `inventory.order_items`) is
    the rows whose foreign key matches, `.first()` is the first matching row,
    and an order's running total is measured against the sum of its lines. */
module Tables {
  import opened Wrappers
  import opened Records

  /** The elements of `s` that satisfy `p`, in their order in `s`. */
  function Filter<T(!new)>(s: seq<T>, p: T -> bool): (r: seq<T>)
    ensures |r| <= |s|
    ensures forall x :: x in r <==> x in s && p(x)
  {
    if s == [] then [] else (if p(s[0]) then [s[0]] else []) + Filter(s[1..], p)
  }

  /** The index of the first element of `s` that satisfies `p`. */
  function FirstWhere<T>(s: seq<T>, p: T -> bool): (k: Option<nat>)
    ensures k.Some? ==> k.value < |s| && p(s[k.value]) && forall j :: 0 <= j < k.value ==> !p(s[j])
    ensures k.None? ==> forall j :: 0 <= j < |s| ==> !p(s[j])
  {
    if s == [] then None
    else if p(s[0]) then Some(0)
    else match FirstWhere(s[1..], p)
      case None => None
      case Some(k) => Some(k + 1)
  }

  /** `s` without its element at `k`. */
  function RemoveAt<T>(s: seq<T>, k: nat): (r: seq<T>)
    requires k < |s|
    ensures |r| == |s| - 1
    ensures forall j :: 0 <= j < k ==> r[j] == s[j]
    ensures forall j :: k <= j < |r| ==> r[j] == s[j + 1]
    ensures forall x :: x in r ==> x in s
  {
    s[..k] + s[k + 1..]
  }

  function LinkOfInventory(inventoryId: int): CategoryLink -> bool {
    (link: CategoryLink) => link.inventoryId == inventoryId
  }

  function LinkOfCategory(categoryId: int): CategoryLink -> bool {
    (link: CategoryLink) => link.categoryId == categoryId
  }

  /** `order.order_items`: the rows of the order, in table order. */
  function ItemsOfOrder(rows: seq<OrderItem>, orderId: int): (r: seq<OrderItem>)
    ensures |r| <= |rows|
  {
    if rows == [] then []
    else (if rows[0].orderId == orderId then [rows[0]] else []) + ItemsOfOrder(rows[1..], orderId)
  }

  lemma {:induction false} ItemsOfOrderMembers(rows: seq<OrderItem>, orderId: int)
    ensures forall x :: x in ItemsOfOrder(rows, orderId) <==> x in rows && x.orderId == orderId
  {
    if rows != [] {
      ItemsOfOrderMembers(rows[1..], orderId);
      assert rows == [rows[0]] + rows[1..];
    }
  }

  /** An order's collection is empty exactly when no row belongs to it. */
  lemma {:induction false} ItemsOfOrderEmpty(rows: seq<OrderItem>, orderId: int)
    ensures ItemsOfOrder(rows, orderId) == [] <==> forall j :: 0 <= j < |rows| ==> rows[j].orderId != orderId
  {
    if rows != [] {
      ItemsOfOrderEmpty(rows[1..], orderId);
      assert forall j :: 1 <= j < |rows| ==> rows[j] == rows[1..][j - 1];
    }
  }

  /** `inventory.order_items`: the rows of the inventory, in table order. */
  function ItemsOfInventory(rows: seq<OrderItem>, inventoryId: int): (r: seq<OrderItem>)
    ensures |r| <= |rows|
  {
    if rows == [] then []
    else (if rows[0].inventoryId == inventoryId then [rows[0]] else []) + ItemsOfInventory(rows[1..], inventoryId)
  }

  lemma {:induction false} ItemsOfInventoryMembers(rows: seq<OrderItem>, inventoryId: int)
    ensures forall x :: x in ItemsOfInventory(rows, inventoryId) <==> x in rows && x.inventoryId == inventoryId
  {
    if rows != [] {
      ItemsOfInventoryMembers(rows[1..], inventoryId);
      assert rows == [rows[0]] + rows[1..];
    }
  }

  /** The rows left once order `orderId` and its rows are deleted. */
  function WithoutOrder(rows: seq<OrderItem>, orderId: int): (r: seq<OrderItem>)
    ensures |r| <= |rows|
  {
    if rows == [] then []
    else (if rows[0].orderId != orderId then [rows[0]] else []) + WithoutOrder(rows[1..], orderId)
  }

  lemma {:induction false} WithoutOrderMembers(rows: seq<OrderItem>, orderId: int)
    ensures forall x :: x in WithoutOrder(rows, orderId) <==> x in rows && x.orderId != orderId
  {
    if rows != [] {
      WithoutOrderMembers(rows[1..], orderId);
      assert rows == [rows[0]] + rows[1..];
    }
  }

  /** The rows left once inventory `inventoryId` and its rows are deleted. */
  function WithoutInventory(rows: seq<OrderItem>, inventoryId: int): (r: seq<OrderItem>)
    ensures |r| <= |rows|
  {
    if rows == [] then []
    else (if rows[0].inventoryId != inventoryId then [rows[0]] else []) + WithoutInventory(rows[1..], inventoryId)
  }

  lemma {:induction false} WithoutInventoryMembers(rows: seq<OrderItem>, inventoryId: int)
    ensures forall x :: x in WithoutInventory(rows, inventoryId) <==> x in rows && x.inventoryId != inventoryId
  {
    if rows != [] {
      WithoutInventoryMembers(rows[1..], inventoryId);
      assert rows == [rows[0]] + rows[1..];
    }
  }

  /** `Orderitem.query.filter_by(order_id = .., inventory_id = ..).first()`:
      the index of the first row of the pair. */
  function PairIndex(rows: seq<OrderItem>, orderId: int, inventoryId: int): (k: Option<nat>)
    ensures k.Some? ==>
      (&& k.value < |rows|
       && rows[k.value].orderId == orderId && rows[k.value].inventoryId == inventoryId
       && forall j :: 0 <= j < k.value ==> !(rows[j].orderId == orderId && rows[j].inventoryId == inventoryId))
    ensures k.None? ==> forall j :: 0 <= j < |rows| ==> !(rows[j].orderId == orderId && rows[j].inventoryId == inventoryId)
  {
    if rows == [] then None
    else if rows[0].orderId == orderId && rows[0].inventoryId == inventoryId then Some(0)
    else match PairIndex(rows[1..], orderId, inventoryId)
      case None => None
      case Some(k) => Some(k + 1)
  }

  /** Changing the quantity of the first row of a pair keeps it the first. */
  lemma PairIndexUpdate(rows: seq<OrderItem>, k: nat, numSel: int, orderId: int, inventoryId: int)
    requires PairIndex(rows, orderId, inventoryId) == Some(k)
    ensures PairIndex(rows[k := rows[k].(numSel := numSel)], orderId, inventoryId) == Some(k)
  {
    var rows' := rows[k := rows[k].(numSel := numSel)];
    assert rows'[k].orderId == orderId && rows'[k].inventoryId == inventoryId;
    assert forall j :: 0 <= j < k ==> rows'[j] == rows[j];
  }

  /** An order with no rows has an empty collection, and deleting it deletes
      no row. */
  lemma {:induction false} NoRowsOfOrder(rows: seq<OrderItem>, orderId: int)
    requires forall j :: 0 <= j < |rows| ==> rows[j].orderId != orderId
    ensures ItemsOfOrder(rows, orderId) == []
    ensures WithoutOrder(rows, orderId) == rows
  {
    if rows != [] {
      NoRowsOfOrder(rows[1..], orderId);
      assert [rows[0]] + rows[1..] == rows;
    }
  }

  /** The first row of an inventory's collection is the first row naming it. */
  lemma {:induction false} FirstOfInventory(rows: seq<OrderItem>, inventoryId: int)
    ensures ItemsOfInventory(rows, inventoryId) == [] <==> forall j :: 0 <= j < |rows| ==> rows[j].inventoryId != inventoryId
    ensures forall k :: (0 <= k < |rows| && rows[k].inventoryId == inventoryId &&
                         (forall j :: 0 <= j < k ==> rows[j].inventoryId != inventoryId))
                        ==> ItemsOfInventory(rows, inventoryId)[0] == rows[k]
  {
    if rows != [] {
      FirstOfInventory(rows[1..], inventoryId);
      if rows[0].inventoryId != inventoryId {
        forall k | 0 < k < |rows| && rows[k].inventoryId == inventoryId &&
                   (forall j :: 0 <= j < k ==> rows[j].inventoryId != inventoryId)
          ensures ItemsOfInventory(rows, inventoryId)[0] == rows[k]
        {
          assert rows[1..][k - 1] == rows[k];
          assert forall j :: 0 <= j < k - 1 ==> rows[1..][j] == rows[j + 1];
        }
      }
    }
  }

  /** Appending a row adds it at the end of its order's collection, and to no
      other order's. */
  lemma {:induction false} ItemsOfOrderAppend(rows: seq<OrderItem>, row: OrderItem, orderId: int)
    ensures ItemsOfOrder(rows + [row], orderId) == ItemsOfOrder(rows, orderId) + (if row.orderId == orderId then [row] else [])
  {
    if rows == [] {
      assert rows + [row] == [row];
      assert [row][1..] == [];
    } else {
      assert (rows + [row])[0] == rows[0];
      assert (rows + [row])[1..] == rows[1..] + [row];
      ItemsOfOrderAppend(rows[1..], row, orderId);
    }
  }

  /** Appending a row adds it at the end of its inventory's collection, and to
      no other inventory's. */
  lemma {:induction false} ItemsOfInventoryAppend(rows: seq<OrderItem>, row: OrderItem, inventoryId: int)
    ensures ItemsOfInventory(rows + [row], inventoryId) ==
            ItemsOfInventory(rows, inventoryId) + (if row.inventoryId == inventoryId then [row] else [])
  {
    if rows == [] {
      assert rows + [row] == [row];
      assert [row][1..] == [];
    } else {
      assert (rows + [row])[0] == rows[0];
      assert (rows + [row])[1..] == rows[1..] + [row];
      ItemsOfInventoryAppend(rows[1..], row, inventoryId);
    }
  }

  /** A new row joins the item collections of its own order and of its own
      inventory, at the end, and no other order's collection. */
  lemma AppendJoinsCollections(rows: seq<OrderItem>, row: OrderItem, orderId: int)
    ensures ItemsOfOrder(rows + [row], row.orderId) == ItemsOfOrder(rows, row.orderId) + [row]
    ensures ItemsOfInventory(rows + [row], row.inventoryId) == ItemsOfInventory(rows, row.inventoryId) + [row]
    ensures orderId != row.orderId ==> ItemsOfOrder(rows + [row], orderId) == ItemsOfOrder(rows, orderId)
  {
    ItemsOfOrderAppend(rows, row, row.orderId);
    ItemsOfInventoryAppend(rows, row, row.inventoryId);
    ItemsOfOrderAppend(rows, row, orderId);
  }

  /** The unit price of an inventory, 0 for one that does not exist. */
  function Price(inventories: map<int, Inventory>, inventoryId: int): int {
    if inventoryId in inventories then inventories[inventoryId].price else 0
  }

  /** What one line item contributes: `inventory.price * num_sel`. */
  function LineTotal(row: OrderItem, inventories: map<int, Inventory>): int {
    Price(inventories, row.inventoryId) * row.numSel
  }

  /** The sum of the lines of all `rows`. */
  function LineSum(rows: seq<OrderItem>, inventories: map<int, Inventory>): int {
    if rows == [] then 0 else LineTotal(rows[0], inventories) + LineSum(rows[1..], inventories)
  }

  /** The total an order should carry: the sum of the lines of the rows that
      belong to it. */
  function OrderTotal(rows: seq<OrderItem>, inventories: map<int, Inventory>, orderId: int): int {
    if rows == [] then 0
    else (if rows[0].orderId == orderId then LineTotal(rows[0], inventories) else 0)
         + OrderTotal(rows[1..], inventories, orderId)
  }

  /** `OrderTotal` is the sum over the order's item collection. */
  lemma {:induction false} OrderTotalIsLineSum(rows: seq<OrderItem>, inventories: map<int, Inventory>, orderId: int)
    ensures OrderTotal(rows, inventories, orderId) == LineSum(ItemsOfOrder(rows, orderId), inventories)
  {
    if rows != [] {
      OrderTotalIsLineSum(rows[1..], inventories, orderId);
      var rest := ItemsOfOrder(rows[1..], orderId);
      if rows[0].orderId == orderId {
        assert ItemsOfOrder(rows, orderId) == [rows[0]] + rest;
        assert ([rows[0]] + rest)[1..] == rest;
      } else {
        assert ItemsOfOrder(rows, orderId) == rest;
      }
    }
  }

  /** An order with no rows has total 0. */
  lemma {:induction false} OrderTotalNoRows(rows: seq<OrderItem>, inventories: map<int, Inventory>, orderId: int)
    requires forall j :: 0 <= j < |rows| ==> rows[j].orderId != orderId
    ensures OrderTotal(rows, inventories, orderId) == 0
  {
    if rows != [] {
      OrderTotalNoRows(rows[1..], inventories, orderId);
    }
  }

  /** Appending a row adds its line to its own order's total and nothing to
      any other order's. */
  lemma {:induction false} OrderTotalAppend(rows: seq<OrderItem>, row: OrderItem, inventories: map<int, Inventory>, orderId: int)
    ensures OrderTotal(rows + [row], inventories, orderId) ==
            OrderTotal(rows, inventories, orderId) + (if row.orderId == orderId then LineTotal(row, inventories) else 0)
  {
    if rows == [] {
      assert rows + [row] == [row];
      assert [row][1..] == [];
    } else {
      assert (rows + [row])[0] == rows[0];
      assert (rows + [row])[1..] == rows[1..] + [row];
      OrderTotalAppend(rows[1..], row, inventories, orderId);
    }
  }

  /** Changing the quantity of one row by `diff` changes its order's total by
      `diff * price` and no other order's total. */
  lemma {:induction false} OrderTotalUpdate(rows: seq<OrderItem>, k: nat, diff: int, inventories: map<int, Inventory>, orderId: int)
    requires k < |rows|
    ensures var row := rows[k];
      OrderTotal(rows[k := row.(numSel := row.numSel + diff)], inventories, orderId) ==
      OrderTotal(rows, inventories, orderId) +
      (if row.orderId == orderId then diff * Price(inventories, row.inventoryId) else 0)
  {
    var row := rows[k];
    var rows' := rows[k := row.(numSel := row.numSel + diff)];
    if k == 0 {
      assert rows'[1..] == rows[1..];
      var p := Price(inventories, row.inventoryId);
      assert p * (row.numSel + diff) == p * row.numSel + diff * p;
    } else {
      assert rows'[0] == rows[0];
      assert rows'[1..] == rows[1..][k - 1 := row.(numSel := row.numSel + diff)];
      OrderTotalUpdate(rows[1..], k - 1, diff, inventories, orderId);
    }
  }

  /** Removing one row takes its line off its own order's total. */
  lemma {:induction false} OrderTotalRemove(rows: seq<OrderItem>, k: nat, inventories: map<int, Inventory>, orderId: int)
    requires k < |rows|
    ensures OrderTotal(RemoveAt(rows, k), inventories, orderId) ==
            OrderTotal(rows, inventories, orderId) -
            (if rows[k].orderId == orderId then LineTotal(rows[k], inventories) else 0)
  {
    if k == 0 {
      assert RemoveAt(rows, 0) == rows[1..];
    } else {
      var rest := RemoveAt(rows[1..], k - 1);
      assert RemoveAt(rows, k) == [rows[0]] + rest;
      assert ([rows[0]] + rest)[1..] == rest;
      OrderTotalRemove(rows[1..], k - 1, inventories, orderId);
    }
  }

  /** Deleting every row of one order leaves every other order's total as it
      was. */
  lemma {:induction false} OrderTotalCascade(rows: seq<OrderItem>, deleted: int, inventories: map<int, Inventory>, orderId: int)
    requires orderId != deleted
    ensures OrderTotal(WithoutOrder(rows, deleted), inventories, orderId) == OrderTotal(rows, inventories, orderId)
  {
    if rows != [] {
      OrderTotalCascade(rows[1..], deleted, inventories, orderId);
      var rest := WithoutOrder(rows[1..], deleted);
      if rows[0].orderId != deleted {
        assert WithoutOrder(rows, deleted) == [rows[0]] + rest;
        assert ([rows[0]] + rest)[1..] == rest;
      } else {
        assert WithoutOrder(rows, deleted) == rest;
      }
    }
  }

  /** Totals only depend on the prices of the inventories the rows name. */
  lemma {:induction false} OrderTotalPrices(rows: seq<OrderItem>, before: map<int, Inventory>, after: map<int, Inventory>, orderId: int)
    requires forall j :: 0 <= j < |rows| ==> Price(before, rows[j].inventoryId) == Price(after, rows[j].inventoryId)
    ensures OrderTotal(rows, before, orderId) == OrderTotal(rows, after, orderId)
  {
    if rows != [] {
      OrderTotalPrices(rows[1..], before, after, orderId);
    }
  }

  /** What one requested line costs. */
  function RequestLine(req: ItemRequest, inventories: map<int, Inventory>): int {
    Price(inventories, req.inventoryId) * req.numSel
  }

  /** The sum of what the requested lines cost. */
  function RequestTotal(reqs: seq<ItemRequest>, inventories: map<int, Inventory>): int {
    if reqs == [] then 0
    else var last := reqs[|reqs| - 1];
      RequestTotal(reqs[..|reqs| - 1], inventories) + RequestLine(last, inventories)
  }

  /** The rows that applying `reqs` to order `orderId` adds, numbered from `firstId`. */
  function RequestedRows(reqs: seq<ItemRequest>, firstId: int, orderId: int): (rows: seq<OrderItem>)
    ensures |rows| == |reqs|
  {
    if reqs == [] then []
    else
      var last := reqs[|reqs| - 1];
      RequestedRows(reqs[..|reqs| - 1], firstId, orderId) + [OrderItem(firstId + |reqs| - 1, last.numSel, last.inventoryId, orderId)]
  }

  /** Appending the rows requested for `orderId` extends that order's
      collection by exactly those rows. */
  lemma {:induction false} RequestedRowsJoinOrder(base: seq<OrderItem>, reqs: seq<ItemRequest>, firstId: int, orderId: int)
    ensures ItemsOfOrder(base + RequestedRows(reqs, firstId, orderId), orderId) ==
            ItemsOfOrder(base, orderId) + RequestedRows(reqs, firstId, orderId)
  {
    if reqs == [] {
      assert base + [] == base;
    } else {
      var init := reqs[..|reqs| - 1];
      var last := reqs[|reqs| - 1];
      var row := OrderItem(firstId + |reqs| - 1, last.numSel, last.inventoryId, orderId);
      RequestedRowsJoinOrder(base, init, firstId, orderId);
      ItemsOfOrderAppend(base + RequestedRows(init, firstId, orderId), row, orderId);
      assert base + RequestedRows(reqs, firstId, orderId) == (base + RequestedRows(init, firstId, orderId)) + [row];
    }
  }

  /** An order with no rows that receives the requested rows holds exactly
      those rows. */
  lemma NewOrderRows(base: seq<OrderItem>, reqs: seq<ItemRequest>, firstId: int, orderId: int)
    requires ItemsOfOrder(base, orderId) == []
    ensures ItemsOfOrder(base + RequestedRows(reqs, firstId, orderId), orderId) == RequestedRows(reqs, firstId, orderId)
  {
    RequestedRowsJoinOrder(base, reqs, firstId, orderId);
    assert [] + RequestedRows(reqs, firstId, orderId) == RequestedRows(reqs, firstId, orderId);
  }

  /** The number of requests before the first one naming a missing inventory. */
  function FirstMissing(reqs: seq<ItemRequest>, inventories: map<int, Inventory>): (n: nat)
    ensures n <= |reqs|
    ensures forall j :: 0 <= j < n ==> reqs[j].inventoryId in inventories
    ensures n < |reqs| ==> reqs[n].inventoryId !in inventories
  {
    if reqs == [] || reqs[0].inventoryId !in inventories then 0
    else 1 + FirstMissing(reqs[1..], inventories)
  }

  /** A fresh order that receives the rows for `reqs` ends with a total equal
      to what the requested lines cost. */
  lemma {:induction false} NewOrderTotal(rows: seq<OrderItem>, reqs: seq<ItemRequest>, firstId: int,
                                         inventories: map<int, Inventory>, orderId: int)
    requires forall j :: 0 <= j < |rows| ==> rows[j].orderId != orderId
    ensures OrderTotal(rows + RequestedRows(reqs, firstId, orderId), inventories, orderId) == RequestTotal(reqs, inventories)
  {
    if reqs == [] {
      assert rows + RequestedRows(reqs, firstId, orderId) == rows;
      OrderTotalNoRows(rows, inventories, orderId);
    } else {
      var init := reqs[..|reqs| - 1];
      var last := reqs[|reqs| - 1];
      NewOrderTotal(rows, init, firstId, inventories, orderId);
      var row := OrderItem(firstId + |init|, last.numSel, last.inventoryId, orderId);
      assert RequestedRows(reqs, firstId, orderId) == RequestedRows(init, firstId, orderId) + [row];
      assert rows + RequestedRows(reqs, firstId, orderId) == (rows + RequestedRows(init, firstId, orderId)) + [row];
      OrderTotalAppend(rows + RequestedRows(init, firstId, orderId), row, inventories, orderId);
    }
  }

  /** Deleting an order deletes exactly its rows: none of them is left, and
      every other order keeps its collection. */
  lemma {:induction false} OrderCascade(rows: seq<OrderItem>, deleted: int, orderId: int)
    ensures ItemsOfOrder(WithoutOrder(rows, deleted), deleted) == []
    ensures orderId != deleted ==>
      ItemsOfOrder(WithoutOrder(rows, deleted), orderId) == ItemsOfOrder(rows, orderId)
  {
    if rows != [] {
      OrderCascade(rows[1..], deleted, orderId);
      var rest := WithoutOrder(rows[1..], deleted);
      if rows[0].orderId != deleted {
        assert WithoutOrder(rows, deleted) == [rows[0]] + rest;
        assert ([rows[0]] + rest)[1..] == rest;
      } else {
        assert WithoutOrder(rows, deleted) == rest;
      }
    }
  }

  /** Deleting an inventory deletes exactly its rows: none of them is left,
      and every other inventory keeps its collection. */
  lemma {:induction false} InventoryCascade(rows: seq<OrderItem>, deleted: int, inventoryId: int)
    ensures ItemsOfInventory(WithoutInventory(rows, deleted), deleted) == []
    ensures inventoryId != deleted ==>
      ItemsOfInventory(WithoutInventory(rows, deleted), inventoryId) == ItemsOfInventory(rows, inventoryId)
  {
    if rows != [] {
      InventoryCascade(rows[1..], deleted, inventoryId);
      var rest := WithoutInventory(rows[1..], deleted);
      if rows[0].inventoryId != deleted {
        assert WithoutInventory(rows, deleted) == [rows[0]] + rest;
        assert ([rows[0]] + rest)[1..] == rest;
      } else {
        assert WithoutInventory(rows, deleted) == rest;
      }
    }
  }

  /** The guard `delete_orderitem` applies, as written: it refuses only while
      the quantity is positive. */
  predicate DeleteAllowedAsWritten(numSel: int) {
    !(numSel > 0)
  }

  /** The guard as the model applies it: a line item goes only once its
      quantity is exactly 0. */
  predicate DeleteAllowed(numSel: int) {
    numSel == 0
  }

  /** As written, a line whose quantity went negative may be deleted, and an
      order that keeps another line keeps a total that no longer matches its
      lines: order 1 has 2 of inventory 2 (price 100) and -1 of inventory 1
      (price 500), so its total is -300; the guard lets the second line go,
      the order survives with its first line, and that line sums to 200. */
  lemma AsWrittenDeleteBreaksTotal()
    ensures var inventories := map[1 := Inventory("", "", "", 500), 2 := Inventory("", "", "", 100)];
      var rows := [OrderItem(1, 2, 2, 1), OrderItem(2, -1, 1, 1)];
      && DeleteAllowedAsWritten(rows[1].numSel)
      && !DeleteAllowed(rows[1].numSel)
      && OrderTotal(rows, inventories, 1) == -300
      && ItemsOfOrder(RemoveAt(rows, 1), 1) != []
      && OrderTotal(RemoveAt(rows, 1), inventories, 1) == 200
  {
    var rows := [OrderItem(1, 2, 2, 1), OrderItem(2, -1, 1, 1)];
    assert rows[1..][1..] == [];
    assert RemoveAt(rows, 1) == [rows[0]];
    assert [rows[0]][1..] == [];
  }

  /** With the corrected guard, deleting a line leaves every order's total
      matching its remaining lines. */
  lemma DeleteAllowedKeepsTotals(rows: seq<OrderItem>, k: nat, inventories: map<int, Inventory>, orderId: int)
    requires k < |rows| && DeleteAllowed(rows[k].numSel)
    ensures OrderTotal(RemoveAt(rows, k), inventories, orderId) == OrderTotal(rows, inventories, orderId)
  {
    OrderTotalRemove(rows, k, inventories, orderId);
  }
}
