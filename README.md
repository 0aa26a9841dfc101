# Store cart and checkout, modelled in Dafny

This project models the cart and checkout core of a Django store application,
together with the model rules and small pieces of admin logic that surround it.
It covers:

- adding products to a shopper's cart, where a product added twice accumulates in one line;
- cart and item totals;
- placing an order from a cart, which creates one order, copies every cart item into a
  price-snapshotted order item, and deletes the cart, all inside one atomic block;
- the product update, which writes only the title, the price and the collection;
- the delete rules of the models (CASCADE, PROTECT, SET_NULL), the choices and their defaults,
  and the column bounds;
- the admin's low-inventory label, the inventory list filter, the "clear inventory" action,
  and the order and product counts.

The database is one value, `Models.Tables`: a map from primary key to row for each table,
plus the next value of each auto-increment sequence. `Models.WellFormed` is the integrity
every committed state keeps:

- keys lie below their sequence;
- every foreign key names an existing row;
- every number fits its column, and every membership fits its one-character column.

Prices are integer cents. A `DecimalField(max_digits=6, decimal_places=2)` holds at most
999999 cents in magnitude. Quantities are `PositiveSmallIntegerField`s (0..32767).
Timestamps are opaque integers passed in by the caller.

A `filter()` over a table is `Query.Where`. It lists the matching keys in ascending key
order. Django promises no order for an unordered queryset, and the model fixes this one;
nothing proved depends on the order except which position an order item takes.

The operations that change the database in place are methods on the class `Database.Db`.
Its constructor makes an empty database, which is well formed. The methods are:

- `Serializers.CreateOrder`, with its loop `Serializers.BulkCreateOrderItems`;
- `AddCartItem.SaveItem`;
- `ProductUpdate.UpdateProduct`;
- `Admin.ClearInventory`.

Each is proved to leave `db.State()` equal to a pure function of the old state:
`Serializers.CheckoutSave`, `AddCartItem.SaveCartItem`, `ProductUpdate.UpdateProductRow` and
`Admin.ClearedProducts`. The properties of the operations are proved as lemmas about those
functions. A serializer's validation followed by its `save` is modelled as two steps on the
same state: `Serializers.PlaceOrder` and `AddCartItem.AddToCart`. `save` requires what
validation established.

Modules:

- `Wrappers` holds `Option` and `Result`.
- `Query` holds `Where` and its lemmas.
- `Models` holds the records, choices, bounds, `Tables`, `WellFormed` and the delete rules
  (store/models.py).
- `Database` holds the mutable database `Db`.
- `Serializers` holds the queries, the validators, the totals and the checkout
  (store/serializers.py, `CreateOrderSerializer` and the two `get_total_price`).
- `AddCartItem` is `AddCartItemSerializer`.
- `ProductUpdate` is `ProductSerializer.update`.
- `Admin` is store/admin.py.

In these places the model follows the code, where a reader might expect otherwise:

- The code's `Customer.objects.get` can also raise `MultipleObjectsReturned`.
- Quantities may be 0, and prices are not required to be positive.
- The `order_created` signal is sent inside the atomic block, not after commit.
  The signal is left out.
- Checkout copies one order item per cart item. It is one per distinct product only while
  cart lines are unique, which `AddCartItem.CheckoutDistinctProducts` proves.

## Model

| member | source | states |
|---|---|---|
| Models.PaymentStatusChoices | store/models.py:45-55 | the stored payment statuses are exactly 'P', 'C' and 'F', and the default 'P' is one of them |
| Models.MembershipChoices | store/models.py:27-41 | the stored memberships are exactly 'B', 'S' and 'G'; the declared default "Bronze" is none of them and is longer than max_length 1 |
| Models.NewOrder | store/models.py:54-56 | a new order carries the given customer and placement time and the default status 'P', a valid choice |
| Models.NewCustomer | store/models.py:36-41 | a new customer gets membership "Bronze", which is not a valid choice and is longer than the varchar(1) column, so `WellFormed` never holds a row with it (kept as written) |
| Models.DeleteCart | store/models.py:64-70 | deleting a cart removes it and exactly its items (CASCADE); every other row is unchanged |
| Models.DeleteCustomer | store/models.py:56-76 | refused with ProtectedError exactly when an order refers to the customer (PROTECT); otherwise the customer and exactly its addresses go (CASCADE) |
| Models.DeleteProduct | store/models.py:58-69 | refused exactly when an order item refers to the product (PROTECT); otherwise exactly its cart items go (CASCADE), and a collection featuring it gets a null featured product (SET_NULL, lines 12-13) |
| Models.DeleteCollection | store/models.py:10-22 | refused exactly when a product belongs to the collection (PROTECT); otherwise only the collection row goes |
| Models.DeleteOrder | store/models.py:58-59 | refused exactly when an order item refers to the order (PROTECT); otherwise only the order row goes |
| Models.DeleteCartWellFormed | store/models.py:67-70 | deleting a cart leaves no dangling foreign key |
| Models.DeleteCustomerWellFormed | store/models.py:72-76 | an allowed customer delete leaves no dangling foreign key |
| Models.DeleteProductWellFormed | store/models.py:58-70 | an allowed product delete leaves no dangling foreign key |
| Models.DeleteCollectionWellFormed | store/models.py:10-22 | an allowed collection delete leaves no dangling foreign key |
| Models.DeleteOrderWellFormed | store/models.py:58-60 | an allowed order delete leaves no dangling foreign key |
| Serializers.CartItemIdsMembers | store/serializers.py:199-201 | the cart-items query lists exactly the items of the cart |
| Serializers.CartLineIdsMembers | store/serializers.py:128 | the (cart, product) query lists exactly the items of that product in that cart |
| Serializers.OrderItemIdsMembers | store/serializers.py:165-169 | the order-items query lists exactly the items of the order |
| Serializers.CustomerIdsMembers | store/serializers.py:194-196 | the user-id query lists exactly the customers with that user id |
| Serializers.ValidateCartId | store/serializers.py:181-186 | an unknown cart fails with 'No cart with the given id was found'; a success returns the id unchanged |
| Serializers.ValidateCartIdCases | store/serializers.py:181-186 | each outcome in both directions: not found iff the cart is missing (checked first, since a missing cart has no items either); 'The cart is empty' iff the cart exists without items; success iff it exists with an item |
| Serializers.ValidateProductId | store/serializers.py:116-119 | succeeds, returning the id unchanged, iff a product has that id; otherwise fails with 'No product with given ID' |
| Serializers.ItemTotal | store/serializers.py:86-87 | an item's total is its quantity times its product's current unit price: 0 for quantity 0, never negative for a non-negative price, and within 32767 x 9999.99 in magnitude for stored columns |
| Serializers.SumItemTotalsNonNegative | store/serializers.py:99-102 | items with non-negative quantities and prices sum to a non-negative amount |
| Serializers.CartTotal | store/serializers.py:99-102 | a cart's total, summed over its items at current prices, is never negative while the cart's products have non-negative prices |
| Serializers.CartItemIdsPriced | store/serializers.py:99-102 | every item of a cart has a product, so the cart total is defined |
| Serializers.CartTotalOfEmptyCart | store/serializers.py:99-102 | a cart with no items totals 0 |
| Serializers.ResolveCustomer | store/serializers.py:194-196 | a success is a customer whose user id matches; a failure is DoesNotExist or MultipleObjectsReturned |
| Serializers.ResolveCustomerCases | store/serializers.py:194-196 | `get` fails with DoesNotExist iff no customer has the user id; succeeds iff exactly one has, and returns that one |
| Serializers.SnapshotsAt | store/serializers.py:202-209 | the built order items sit under consecutive keys, the k-th being the k-th cart item with its product's current price |
| Serializers.SnapshotsStep | store/serializers.py:202-210 | one more cart item adds one more snapshot, under the next key |
| Serializers.InsertOrderItems | store/serializers.py:198-210 | after the inserts, the new order's items are the run of fresh keys, each the snapshot of the matching cart item; older order items are kept |
| Serializers.InsertOrderKeepsOlder | store/serializers.py:198-210 | the inserts keep every older order item unchanged, and every added order item belongs to the new order |
| Serializers.InsertOrderRun | store/serializers.py:198-210 | querying the new order's items lists exactly the keys the bulk insert took, in ascending order, one per cart item |
| Serializers.CheckoutSave | store/serializers.py:188-217 | the pure `save` after validation: it succeeds iff the customer resolves, and then adds a pending order under a fresh key for that customer and removes the cart |
| Serializers.PlaceOrder | store/serializers.py:181-217 | validation then `save`: an unknown cart fails with 'No cart with the given id was found'; a success needs a cart with an item, takes a fresh order key and removes the cart |
| Serializers.CheckoutFailsOnlyOnCustomer | store/serializers.py:192-198 | after validation, checkout fails iff the customer lookup fails, with the same error (DoesNotExist or MultipleObjectsReturned) |
| Serializers.CheckoutCreatesOneOrder | store/serializers.py:194-198 | success adds exactly one order, under a fresh key, pending, placed at the given time, for the customer whose user id matches |
| Serializers.CheckoutCopiesCartItems | store/serializers.py:199-210 | the new order has as many items as the cart, the k-th with the product, the quantity and the product's current unit price of the k-th cart item; old order items are untouched and no other item is added |
| Serializers.InsertOrderWellFormed | store/serializers.py:198-210 | the order and order-item inserts keep every foreign key and column bound |
| Serializers.CheckoutWellFormed | store/serializers.py:192-212 | a successful checkout leaves the database well formed |
| Serializers.CheckoutRemovesCart | store/serializers.py:212 | afterwards the cart and its items are gone; every other cart keeps exactly its items; products, collections, customers and addresses are unchanged |
| Serializers.CheckoutItemCount | store/serializers.py:199-210 | the new order's item query is as long as the cart's item query |
| Serializers.OrderItemCount | store/serializers.py:165-169 | the order-items query counts the order items referring to the order |
| Serializers.CartItemCount | store/serializers.py:96-101 | the cart-items query counts the cart items referring to the cart |
| Serializers.CheckoutOneOrderItemPerCartItem | store/serializers.py:199-210 | the number of order items of the new order equals the number of items the cart had |
| Serializers.SumsAgree | store/serializers.py:99-102 | order lines that copy cart items one for one add up to the same amount |
| Serializers.CheckoutOrderTotal | store/serializers.py:202-210 | the new order's total equals the cart's total at checkout |
| Serializers.NoDoubleCheckout | store/serializers.py:181-212 | after a successful checkout, checking out the same cart again fails with 'No cart with the given id was found' |
| Serializers.ExampleShopQueries | store/serializers.py:181-201 | in the example shop, the cart lists items 0 and 1 and user 7 resolves to customer 0 |
| Serializers.ExampleShopInsert | store/serializers.py:198-210 | in the example shop, the inserts add the pending order 0 and the order items (2, 10.00) and (1, 5.00) |
| Serializers.CheckoutExample | store/serializers.py:192-212 | the example cart (2 x 10.00, 1 x 5.00) becomes one pending order with lines (2, 10.00) and (1, 5.00); the cart is gone |
| Serializers.BulkCreateOrderItems | store/serializers.py:202-210 | the loop inserts the snapshot of every cart item under consecutive fresh keys and changes nothing else |
| Serializers.CreateOrder | store/serializers.py:188-217 | `save` on the database: on success the new state is the one `CheckoutSave` describes and the order key is returned; on failure nothing changes; the database stays well formed |
| AddCartItem.ValidateQuantity | store/models.py:70 | the quantity field accepts exactly 0..32767, with the two bound messages |
| AddCartItem.SaveCartItem | store/serializers.py:121-136 | errors are limited to MultipleObjectsReturned, the missing-cart IntegrityError and the overflow DataError; on success the written line holds the old quantity plus the new one, only that line changes or is added, and nothing else changes |
| AddCartItem.SaveCartItemCases | store/serializers.py:126-136 | each outcome by the number of lines `get` finds: two or more raise; one is updated in place unless the sum passes 32767; none creates a line under a fresh key unless the cart is missing |
| AddCartItem.AddToCart | store/serializers.py:116-136 | an unknown product fails with 'No product with given ID'; an out-of-range quantity fails with its field error; otherwise the result is `save` |
| AddCartItem.UniqueLinesAtMostOne | store/serializers.py:128 | while lines are unique, the (cart, product) query finds at most one line |
| AddCartItem.FirstTwoLines | store/serializers.py:128 | when the query lists two lines, they are distinct lines of that product in that cart |
| AddCartItem.SaveCartItemKeepsLinesUnique | store/serializers.py:126-136 | with unique lines, `save` never raises MultipleObjectsReturned and keeps at most one line per (cart, product) |
| AddCartItem.SaveCartItemWellFormed | store/serializers.py:126-136 | a successful `save` leaves the database well formed |
| AddCartItem.SumItemTotalsFrame | store/serializers.py:99-102 | a cart sum over the same item keys is unchanged when those rows are unchanged |
| AddCartItem.SumItemTotalsBump | store/serializers.py:99-102 | raising one listed item's quantity by d raises the sum by d times its price |
| AddCartItem.SaveCartItemTotal | store/serializers.py:126-136 | a successful `save` raises its cart's total by quantity times the unit price and leaves every other cart's total unchanged |
| AddCartItem.UpdatedLineTotals | store/serializers.py:128-130 | the update case of the total property |
| AddCartItem.InsertedLineTotals | store/serializers.py:134-136 | the insert case of the total property |
| AddCartItem.InsertedLineOwnCart | store/serializers.py:134-136 | an inserted line raises its own cart's total by quantity times the unit price |
| AddCartItem.AddTwiceAccumulates | store/serializers.py:126-131 | saving the same product twice writes one line whose quantity is the sum of both, or fails with DataError when the sum passes 32767 |
| AddCartItem.FullLineOverflows | store/serializers.py:129 | adding 1 to a line at 32767 fails with DataError: no declared check stops the `+=` |
| AddCartItem.CheckoutDistinctProducts | store/serializers.py:199-210 | while cart lines are unique, the items of a placed order have pairwise distinct products |
| AddCartItem.SaveItem | store/serializers.py:121-138 | `save` on the database: on success the new state is the one `SaveCartItem` describes and the line's key is returned; on failure nothing changes; the database stays well formed |
| ProductUpdate.UpdateProductRow | store/serializers.py:58-63 | fails with a NOT NULL IntegrityError (title, then unit_price, then collection_id) iff one of the three fields is absent; on success only that product's row changes |
| ProductUpdate.UpdateWritesThreeFields | store/serializers.py:58-63 | the saved row takes the sent title, price and collection and the save time; slug, description and inventory keep their stored values whatever the request sent |
| ProductUpdate.UpdateProductRowWellFormed | store/serializers.py:58-63 | the update keeps the database well formed |
| ProductUpdate.UpdateIdempotent | store/serializers.py:58-63 | sending the same data twice equals sending it once at the later time |
| ProductUpdate.UpdateKeepsOrderTotals | store/serializers.py:58-63 | every order's total is unchanged: order items keep the price snapshotted at checkout |
| ProductUpdate.SumOrderLinesFrame | store/serializers.py:58-63 | an order's sum depends only on the order-item rows |
| ProductUpdate.SumItemTotalsPrices | store/serializers.py:99-102 | a cart sum depends on the listed items' prices only |
| ProductUpdate.UpdateRepricesOnlyCartsHoldingIt | store/serializers.py:99-102 | carts are priced live: the total of a cart without the product is unchanged by its update |
| ProductUpdate.UpdateProduct | store/serializers.py:58-63 | `update` on the database: the new state is the one `UpdateProductRow` describes and the saved row is returned, or nothing changes on error |
| Admin.InventoryStatusOf | store/admin.py:57-60 | 'Low' iff inventory < 10; otherwise the inventory number itself |
| Admin.OnlyLowLookup | store/admin.py:15-18 | the only lookup the filter offers is '<10' |
| Admin.LowRows | store/admin.py:22 | `filter(inventory__lt=10)` keeps exactly the queryset's products with inventory below 10 |
| Admin.InventoryFilterQuerysetAsWritten | store/admin.py:20-22 | the filter as written returns None for every choice |
| Admin.InventoryFilterQueryset | store/admin.py:20-22 | the corrected filter returns, for '<10', exactly the queryset's products with inventory below 10, and None otherwise |
| Admin.ProductIdsMembers | store/admin.py:38-48 | the change list starts from every product |
| Admin.InventoryFilterNeverNarrows | store/admin.py:20-22 | as written, the change list shows every product whatever the choice |
| Admin.InventoryFilterCounterexample | store/admin.py:20-22 | a product with inventory 20 is listed under 'Low' as written and not with the corrected filter |
| Admin.InventoryFilterShowsLowRows | store/admin.py:20-22 | with the corrected filter, 'Low' lists exactly the products with status 'Low', and no choice lists them all |
| Admin.ClearedProducts | store/admin.py:63-64 | `update(inventory=0)` keeps the same products, and each row is either unchanged or a selected row with only its inventory set to 0 |
| Admin.ClearInventoryEffect | store/admin.py:63-64 | selected products get inventory 0; other products and all other fields (last_update included) are unchanged |
| Admin.ClearInventoryWellFormed | store/admin.py:63-64 | the action keeps the database well formed |
| Admin.ClearedShowLow | store/admin.py:57-64 | after the action every selected product shows 'Low' |
| Admin.ClearInventoryIdempotent | store/admin.py:63-64 | clearing twice is clearing once |
| Admin.ClearInventory | store/admin.py:63-69 | the action on the database: new state as `ClearedProducts` describes; the reported count is the number of selected rows that exist |
| Admin.OrdersCount | store/admin.py:88-95 | the annotated count is at most the number of order keys handed out, and 0 for a customer with no orders |
| Admin.ProductsCount | store/admin.py:122-125 | the annotated count is at most the number of product keys handed out, and 0 for a collection with no products |
| Admin.OrdersCountIsOrdersOfCustomer | store/admin.py:87-95 | the annotated count equals the number of orders referring to the customer |
| Admin.ProductsCountIsProductsOfCollection | store/admin.py:111-125 | the annotated count equals the number of products in the collection |
| Admin.DeleteCustomerRefusedIffOrders | store/admin.py:92-95 | a customer's delete is refused iff its orders count is positive |
| Admin.DeleteCollectionRefusedIffProducts | store/admin.py:122-125 | a collection's delete is refused iff its products count is positive |
| Admin.CheckoutCountsOneOrder | store/admin.py:92-95 | a checkout adds one to the ordering customer's orders count and leaves every other customer's unchanged |

## Left out

- The whole model assumes PostgreSQL's column ranges: quantities 0..32767, the field bounds and their messages in `AddCartItem.ValidateQuantity`, and the refusal of over-long varchar values. SQLite enforces no upper bound and MySQL allows 0..65535 for a positive small integer.
- Inserting a customer is not modelled. `Models.NewCustomer` only builds the row; storing it would be refused, because "Bronze" does not fit the varchar(1) column.
- `ProductSerializer.calculate_tax`: it multiplies by `Decimal(1.1)`, which is built from a binary float, and then rounds, so it is not modelled.
- The `order_created.send_robust` signal: its receivers are in store/signals, which is not part of this model. Note that it is sent inside the atomic block.
- The `print(customer)` call is console output and is not modelled.
- Transactions, isolation and concurrent double checkouts are not modelled. Validation and `save` are two sequential steps on one state, so `Serializers.CreateOrder` and `AddCartItem.SaveItem` require what validation established.
- A failed checkout is modelled as a rollback: nothing changes.
- Wall-clock fields are not read from a clock. `placed_at`, `last_update` and `created_at` are parameters.
- Rendering is not modelled: the serializer field lists, the admin HTML and links, `message_user` (the count is returned instead), `Media`, the inlines and the form limits.
- Promotions and the `promotions` many-to-many field are not modelled, and neither are images and reviews.
- The user serializers of core/serializers.py and the permissions of store/permissions.py are not modelled: they are field lists and framework calls.
- `Customer.user`: store/models.py as shown has no `user` field. The serializers (store/serializers.py:194-195), the admin (store/admin.py:84) and migration 0005 use one, so a customer carries a `userId`.
- The uniqueness of `email` is not enforced.
- Cart keys: `CreateOrderSerializer.cart_id` is a UUID field, while store/models.py gives `Cart` the default integer key. Cart keys are modelled as opaque integers chosen by the caller.
- `CartSerializer` reads `cart.items`, but store/models.py declares no `related_name`. The model reads a cart's items through the `cart_id` filter.
- `AddCartItem.SaveCartItem` models the sum past 32767 as a DataError that leaves the row unchanged. This is what PostgreSQL does; a database without the range check would store the value.
- `AddCartItem.SaveCartItem` leaves the sequence unadvanced after a failed insert. Real databases may consume the key.
- `AddCartItem.AddToCart` reports the first failing field (product_id, then quantity). DRF collects the errors of every field into one response.
- The context value `cart_id` or `user_id` may be missing. The model does not cover that case: both are always given.
- `ProductUpdate.UpdateProductRow` names the first NOT NULL column in table order. Which column the database reports is backend dependent.
- Field validation of the title length, slug format and email format is not modelled.
- The `MinValueValidator(1)` on unit_price from migration 0004 is not adopted, because store/models.py declares no validator.
- `OrderItemInline`'s 1..10 limits are admin form rules and are not modelled.

## Findings

| source | as written | input that shows it | evidently intended | confidence | as-written member | corrected member |
|---|---|---|---|---|---|---|
| store/admin.py:20-22 | `InventoryFilter.queryset` evaluates `queryset.filter(inventory__lt=10)` but does not return it, so it returns None and the change list keeps the unfiltered queryset | products with inventory 5 and 20, with 'Low' chosen: both are listed (`Admin.InventoryFilterCounterexample`) | return the filtered queryset, so that 'Low' lists exactly the products with inventory below 10 | not executed; high, since the result of `filter` is discarded | Admin.InventoryFilterQuerysetAsWritten | Admin.InventoryFilterQueryset |
