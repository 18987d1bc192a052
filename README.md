# Grocery order engine — a Dafny model

This project models the order engine of a small food-ordering backend. That engine is the request handlers in `app.py` and the records and serialisers they use in `db.py`. It covers:

- the catalog tables: inventories, categories and the inventory–category links;
- orders and their line items ("order items");
- the running `total_price` of an order;
- the pick-up-time rule;
- deletion of a line item and the cascade from an order to its items;
- the public URL, salt and allowed extensions of an image asset.

The database is an in-memory `Store` (module `Engine`), with one field per table:

- Keyed tables are maps from id to record.
- The order-item table and the inventory–category table are sequences of rows in table order. `order.order_items` and `inventory.order_items` are the rows whose key matches, in that order. A query's `.first()` is the first matching row.
- Each table hands out ids from its own counter, and ids are never reused.

A handler's response body is a `Result`: `Success(view)` or `Failure(error)` carrying the handler's own message.

The central invariant is `Engine.TotalsMatch`, one conjunct of `Store.Valid`. It says every stored order's total equals the sum of `price * num_sel` over that order's rows. Every state-changing method of `Store` preserves `Valid`.

Prices are integers (think cents), so that sum is exact. A timestamp has the `datetime` fields the pick-up rule uses: a day number, the hour, minute and second, and the microsecond. Two sources of input become parameters: the current time (`now`) and the random draws behind an asset's salt.

In these places the model follows what the code does rather than what the system's design intends (an all-or-nothing `create_order`, a stored user name, an idempotent category assignment):

- A failed `create_order` leaves the fresh order stored. It is not valid and holds the lines applied before the failure.
- `submit_order` keeps no user name.
- `delete_orderitem`'s response is the order's projection with its remaining rows.
- `assign_category` appends the inventory–category link even when the inventory already has that category. So the model can hold the same link twice, and `Category.serialize` then lists the inventory twice. The append at app.py:118 is unconditional, and the association table (db.py:16-20) has no key or uniqueness constraint. The code does not say whether the ORM writes a second row for a member its collection already holds; the model takes the append literally.

Modules, one per file: `Wrappers`, `PickUp`, `Records`, `Tables`, `Views`, `Assets`, `Engine`.

## Model

| member | source | states |
|---|---|---|
| PickUp.PickUpTime | app.py:301-307 | The pick-up time is a well-formed time no later than hour 19. It keeps the microseconds. It falls on the next day exactly when the order's hour is past 19, and otherwise on the same day. |
| PickUp.PickUpWindows | app.py:301-307 | From 20:00 on: next day 18:59:59. From 18:00 to 19:59:59: the same day at 18:59:59. Before 18:00: exactly two hours later. |
| PickUp.UncappedThroughHour19 | app.py:305-307 | The cap applies only when the new hour is strictly past 19. From hour 17 the result is the same time at hour 19, uncapped. |
| PickUp.PickUpBeforeOrderIffHour19 | app.py:301-307 | The pick-up time is earlier than the order's own time if and only if the order is stamped during hour 19. |
| PickUp.PickUpExamples | app.py:301-307 | 17:30 gives 19:30; 18:00 gives 18:59:59; 20:05 gives the next day at 18:59:59; 19:30 gives 18:59:59 of the same day. |
| Records.NewInventory | db.py:45-52 | Each text field is the given value, or the empty string when its keyword is left out. The price is the given one. |
| Records.NewCategory | db.py:123-129 | The name is kept. The description is the given one, or the empty string when it is left out. |
| Records.NewOrder | db.py:212-218 | A new order has no times. Its total is the given one, or 0. It is valid only when told so. |
| Records.NewOrderItem | db.py:253-259 | The inventory is the value under the keyword "inventroy_id", and the quantity and order are the values under "num_sel" and "order_id". Each is unset when its keyword is missing. |
| Records.ConstructedItemHasNoInventory | app.py:430-434 | With the keywords `create_orderitem` passes, the constructed line item has no inventory. Its quantity and order are the given ones. |
| Records.Attach | app.py:439-440 | Appending the item to both collections sets its order and its inventory. The row keeps its quantity and gets its id. |
| Tables.ItemsOfOrderMembers | db.py:208 | A row is in an order's collection if and only if it is a row of the table naming that order. |
| Tables.ItemsOfOrderEmpty | app.py:515 | An order's collection is empty if and only if no row of the table names the order. |
| Tables.ItemsOfInventoryMembers | db.py:43 | A row is in an inventory's collection if and only if it is a row of the table naming that inventory. |
| Tables.WithoutOrderMembers | db.py:208 | After the cascade from a deleted order, a row remains if and only if it was there and names another order. |
| Tables.WithoutInventoryMembers | db.py:43 | After the cascade from a deleted inventory, a row remains if and only if it was there and names another inventory. |
| Tables.PairIndex | app.py:478 | The lookup by (order, inventory) finds the first row with both keys, or reports that no row has them. |
| Tables.PairIndexUpdate | app.py:482 | Changing the found row's quantity does not change which row the lookup finds. |
| Tables.ItemsOfOrderAppend | app.py:439 | Appending a row extends the collection of the order it names by that row, and leaves every other order's collection as it was. |
| Tables.ItemsOfInventoryAppend | app.py:440 | Appending a row extends the collection of the inventory it names by that row, and leaves every other inventory's collection as it was. |
| Tables.AppendJoinsCollections | app.py:439-440 | The new row ends both its order's collection and its inventory's collection. No other order's collection changes. |
| Tables.OrderTotalIsLineSum | db.py:208 | The total computed over the table equals the sum of `price * num_sel` over the order's own collection. |
| Tables.OrderTotalNoRows | app.py:283-286 | An order named by no row sums to 0. |
| Tables.OrderTotalAppend | app.py:436-437 | Appending a row adds its `price * num_sel` to the sum of the order it names, and to no other order's sum. |
| Tables.OrderTotalUpdate | app.py:482-484 | Moving one row's quantity by `diff` moves its order's sum by `diff * price`, and no other order's sum. |
| Tables.OrderTotalRemove | app.py:512 | Removing a row takes its `price * num_sel` out of its order's sum, and out of no other order's sum. |
| Tables.OrderTotalCascade | db.py:208 | Cascading a deleted order's rows leaves every other order's sum unchanged. |
| Tables.OrderTotalPrices | app.py:70-85 | An order's sum depends only on the prices of the inventories its rows name. |
| Tables.RequestedRowsJoinOrder | app.py:292-293 | Appending the requested rows of an order extends that order's collection by exactly those rows. |
| Tables.NewOrderRows | app.py:283-293 | A fresh order's collection is exactly its requested rows, in request order. |
| Tables.FirstMissing | app.py:292-295 | This is the count of requests applied before the first one whose inventory is missing. Every earlier request names an existing inventory; the request at that position does not. |
| Tables.NewOrderTotal | app.py:283-293 | A fresh order's sum over its requested rows is the sum of `price * num_sel` over the requests. |
| Tables.OrderCascade | db.py:208 | After the cascade, the deleted order has no rows. Every other order's collection is as it was. |
| Tables.InventoryCascade | db.py:43 | After the cascade, the deleted inventory has no rows. Every other inventory's collection is as it was. |
| Tables.AsWrittenDeleteBreaksTotal | app.py:509-513 | Take an order with 2 of an inventory priced 100 and -1 of one priced 500; its total is -300. The guard as written lets the -1 line be deleted, but the corrected guard does not. The order keeps a line, so it survives with its total of -300 while that line sums to 200. |
| Tables.DeleteAllowedKeepsTotals | app.py:509-513 | With the corrected guard (quantity exactly 0), deleting a line leaves every order's sum unchanged. |
| Views.SerializeOrder | db.py:221-231 | The projection carries the order's id, times, total and validity. It has one entry per row of the order. |
| Views.SerializeItems | db.py:261-270 | Entry `k` is the `serialize` projection of row `k`: id, quantity and inventory. |
| Views.SerializeOrderListsItsItems | db.py:225-231 | The projection lists exactly the order's current rows. Every row of the order has its entry, and every entry belongs to a row of the order. |
| Views.SerializeForOrder | db.py:272-283 | The entry shows the referenced inventory's image and name, with the row's quantity as `selectedNum`. |
| Views.SummarizeOrder | db.py:233-241 | The simple projection carries the order's fields. It has one entry per row of the order, each showing that row's inventory image and name and the row's quantity. |
| Views.SummarizeItems | db.py:272-283 | Entry `k` is the `serialize_for_order` projection of row `k`. |
| Views.RenderInventory | db.py:70-93 | `selectedNum` is the quantity of the first row naming the inventory, or 0 if there is none. `category` is the first linked category's id, or 0 if there is none. The other fields are the inventory's. |
| Views.SerializeCategory | db.py:132-141 | The category's fields, then one entry per link of the category, in table order, each the linked inventory. |
| Views.FilterFirst | db.py:74-82 | A filtered list is empty exactly when no element passes. Its first element is the first element that passes. |
| Assets.LastSegmentAfterSlash | db.py:320 | The last path segment of `prefix/name` is `name`. |
| Assets.UrlNamesUploadedFile | db.py:320 | The URL's last segment is the uploaded file's name `salt.extension`, whatever the base URL. |
| Assets.MakeSalt | db.py:340-345 | The salt is 16 characters from upper-case letters and digits. Character `i` is the alphabet entry of draw `i`. |
| Assets.Asset.constructor | db.py:324-389 | The asset is refused whenever the extension is not png, gif, jpg or jpeg. It is built for an allowed extension whose image decodes. Built: salt of the right form, bucket base URL, extension, size and `now` are set, and only a failed upload is printed. Refused: every field is unset and the creation error is printed, either the unsupported type or the decoding failure. |
| Assets.Asset.Serialize | db.py:314-322 | The URL is `base_url + "/" + salt + "." + extension`; the creation time is the asset's. |
| Engine.DecimalString | app.py:153-154 | `str(n)` is a non-empty string of decimal digits. |
| Engine.ParseDecimalString | app.py:153-154 | Reading the decimal string of `n` gives back `n`. |
| Engine.ArgKeysDistinct | app.py:153-154 | Different positions ask for different query keys "c0", "c1", …. |
| Engine.ArgKeysCount | app.py:151-154 | The keys "c0" .. "c{n-1}" are `n` different keys. |
| Engine.OnlyArgKeys | app.py:151-154 | When each of "c0" .. "c{n-1}" is among the `n` query arguments, they are all the arguments there are. |
| Engine.FirstNamed | app.py:115 | This is the smallest id of a category with the given name, or none. Every smaller id has another name. |
| Engine.TotalsAfterNewInventory | app.py:70-85 | Adding an inventory keeps every order's total equal to its rows' sum. |
| Engine.TotalsAfterNewOrder | app.py:283-286 | A new order with total 0 and no rows keeps the invariant. |
| Engine.TotalsAfterAppend | app.py:436-440 | Appending a row while adding its `price * num_sel` to its order's total keeps the invariant. |
| Engine.TotalsAfterUpdate | app.py:482-484 | Moving one row's quantity by `diff` together with its order's total by `diff * price` keeps the invariant. |
| Engine.TotalsAfterRemove | app.py:509-513 | Removing a row whose quantity is 0 keeps the invariant. |
| Engine.TotalsAfterCascade | db.py:208 | Deleting an order together with its rows keeps the invariant for every remaining order. |
| Engine.Store.CreateInventory | app.py:70-85 | The new inventory is stored under a fresh id with the body's fields, and the invariant is kept. The render shows nothing selected and no category; orders are unchanged. |
| Engine.Store.FindCategoryByName | app.py:115 | The scan returns the smallest id whose category has the name. |
| Engine.Store.AssignCategory | app.py:102-120 | A missing inventory fails and changes nothing. Otherwise an existing category of that name is reused, and a new one is created only when none has the name. The link is appended and the category is serialised. Unique names stay unique. |
| Engine.Store.GetCategories | app.py:146-163 | The first missing key "c{i}" fails with that key. Otherwise the request succeeds if and only if every requested id exists. The result lists the categories in key order; otherwise it fails with "Category not found!". Once every key is found, the keys read are all of the arguments. |
| Engine.Store.FindOrderItem | app.py:478 | The scan returns the index of the first row of the (order, inventory) pair, or none. |
| Engine.Store.CreateOrderItem | app.py:416-447 | A missing order, then a missing inventory, fails and changes nothing. Otherwise a row with the next id is appended, and its order's total grows by exactly `price * num_sel`. The row ends both the order's and the inventory's collections, and the invariant is kept. |
| Engine.Store.SimpleCreateOrderItem | app.py:407-414 | Creates the requested line. It fails if and only if the order or the inventory is missing. |
| Engine.Store.AddOrderItemToOrder | app.py:328-349 | An existing line for the pair is refused with the conflict message, and nothing changes. Otherwise it behaves as `create_orderitem`, returning the new row's projection. |
| Engine.Store.ApplyRequests | app.py:290-295 | The requested lines are created in order up to the first missing inventory. The table gains exactly those rows; the total grows by their sum; the error is reported if and only if some request failed. |
| Engine.Store.OpenOrder | app.py:283-287 | A fresh order (total 0, not valid, no times) is stored under a new id. It has no rows, and the invariant is kept. |
| Engine.Store.Stamp | app.py:363-374 | The order gets `now` as its creation time, the pick-up time derived from `now`, and `valid = true`. Nothing else changes. |
| Engine.Store.FillOrder | app.py:288-314 | The fresh order gets its requested lines up to the first missing inventory. A failure leaves it not valid, holding those lines and their total. Otherwise it is stamped, valid, and its total is the request's sum. |
| Engine.Store.CreateOrderFrom | app.py:283-314 | A fresh order gets the requested lines up to the first missing inventory. A failure leaves the order stored, not valid, holding those lines and their total. Otherwise the order is stamped, valid, and its total is the request's sum. |
| Engine.Store.CreateOrder | app.py:272-314 | As CreateOrderFrom. A body without a list of lines leaves a fresh order stored and fails the iteration. The total in the body is ignored. |
| Engine.Store.SubmitOrder | app.py:352-378 | A missing order fails with "order not found!" and changes nothing. Otherwise the order is stamped with `now` and its pick-up time and becomes valid. Its rows are unchanged. |
| Engine.Store.DeleteOrder | app.py:381-391 | A missing order fails and changes nothing. Otherwise the order and, by cascade, all its rows are deleted. The response shows the order as it was. |
| Engine.Store.DeleteOrderItem | app.py:495-518 | A missing order or line fails and changes nothing. A line whose quantity is not 0 is refused. Otherwise the pair's first row is removed, and the order is deleted when that was its last row. The invariant is kept. |
| Engine.Store.AdjustLine | app.py:482-484 | Row `k`'s quantity moves by `diff` and its order's total by `diff * price`, together. The invariant is kept. |
| Engine.Store.UpdateLine | app.py:482-492 | Adjusts the found line. A quantity that reaches 0 deletes the row, and the order with it when that was its last row. Returns the order with its new total. |
| Engine.Store.UpdateOrderItem | app.py:466-492 | A missing order, inventory or line fails with its message and changes nothing. Otherwise the result is that of UpdateLine on the pair's first row, and the invariant is kept. |
| Engine.Store.IncreaseOrderItem | app.py:450-455 | An update by +1. |
| Engine.Store.DecreaseOrderItem | app.py:458-463 | An update by -1. |

## Left out

- HTTP transport is not modelled: Flask routing, `json.loads`, the success and failure envelopes, and status codes. A response is a `Result`.
- Session and commit mechanics are not modelled, so each handler takes effect as one step.
- Image handling is left out, because it is foreign library code and network I/O: base64 decoding, the MIME-type guess, reading the image size, and the S3 upload. Each outcome becomes a parameter: the guessed extension, whether decoding fails and with what message, the size, the bucket name, and whether the upload fails and with what message.
- Random salts and the clock are not modelled. `SystemRandom` becomes a sequence of draws, and `datetime.datetime.now()` becomes the `now` parameter.
- Prices are integers rather than floats, so the total invariant is exact; floating-point rounding is not modelled.
- `str()` of a timestamp is not modelled; projections carry the timestamp itself.
- Dates have no calendar or year range: a day is an unbounded integer, and `datetime` overflow is not modelled.
- A JSON field that is missing, non-numeric or the wrong type is not modelled. Ids, quantities and prices arrive as integers, and names and descriptions as strings. The only missing input modelled is the `inventories` list of `create_order`.
- A field missing from the body of `create_inventory` or `assign_category` is not modelled. The handler passes the keyword with the value `None`, so the constructor's "" default does not apply, and the non-null column then refuses the row at commit. `Records.NewInventory` and `Records.NewCategory` state the defaults for a keyword that is left out.
- `get_order_by_id` (app.py:318-325) is not modelled. Its not-found check tests the wrong variable (line 323).
- `greet_user`, the menu routes, `get_inventories`, `test_get_inventories`, `get_inventory_by_id`, `get_all_categories`, `get_category`, `get_orders` and `get_orderitems` are left out. They only read tables or concern menus, which are outside the order engine.
- The `Order` built from the request body at app.py:278-281 is not modelled, because it is discarded at once.
- Engine.Store.SubmitOrder: does not store `user_name`, because the record has no such column.
- Reused ids are not modelled: SQLite may hand out the largest deleted id again, while here counters never go back.
- No route deletes an inventory, so the inventory cascade (db.py:43) exists only as `Tables.InventoryCascade`.
- Engine.Store.DeleteOrderItem: uses the corrected guard (quantity exactly 0) rather than the guard as written (see Findings).
- ORM expiry is not modelled. A deleted order's projection uses the values held before deletion.
- Engine.Store.GetCategories: query values are integers, so a value that does not parse as an id is not modelled.

## Findings

| source | as written | input that shows it | evidently intended | confidence | as-written member | corrected member |
|---|---|---|---|---|---|---|
| app.py:509 | `delete_orderitem` refuses only while `num_sel > 0`, so a line with a negative quantity is deleted without touching `total_price`. | An order has a line with `num_sel = 2` for an inventory priced 100, and a line with `num_sel = -1` for an inventory priced 500 (added with -1, or created with 0 and decreased). Its total is -300. Delete the -1 line: the order keeps its other line, so it is not deleted, and its total stays -300 while its lines sum to 200. | A line is deleted only once its quantity is exactly 0, so the total always equals the sum over the order's lines. | not executed | Tables.AsWrittenDeleteBreaksTotal | Tables.DeleteAllowedKeepsTotals |
