/** The admin logic of store/admin.py: the low-inventory label, the inventory
    list filter, the "clear inventory" action and the per-row counts. */
module Admin {
  import opened Wrappers
  import opened Query
  import opened Models
  import opened Database
  import opened Serializers

  /** Below this many units a product is shown as low. */
  const LOW_INVENTORY := 10

  /** `inventory_status` returns either the label 'Low' or the number itself. */
  datatype InventoryStatus = Low | Units(inventory: int)

  function InventoryStatusOf(p: Product): (s: InventoryStatus)
    ensures s == Low <==> p.inventory < LOW_INVENTORY
    ensures s.Units? ==> s.inventory == p.inventory && s.inventory >= LOW_INVENTORY
  {
    if p.inventory < LOW_INVENTORY then Low else Units(p.inventory)
  }

  // ---------------------------------------------------------------------------
  // InventoryFilter

  const LOW_LOOKUP := "<10"

  /** `lookups`: the one choice the filter offers. */
  const INVENTORY_LOOKUPS: Choices := [(LOW_LOOKUP, "Low")]

  lemma OnlyLowLookup(v: string)
    ensures IsChoice(INVENTORY_LOOKUPS, v) <==> v == LOW_LOOKUP
  {
    if v == LOW_LOOKUP {
      assert INVENTORY_LOOKUPS[0].0 == v;
    }
  }

  /** The products of a queryset whose inventory is below 10, in queryset order:
      `filter(inventory__lt=10)`. */
  function LowRows(t: Tables, rows: seq<Id>): (r: seq<Id>)
    requires forall j :: 0 <= j < |rows| ==> rows[j] in t.products
    ensures forall j :: 0 <= j < |r| ==> r[j] in t.products
    ensures forall x :: x in r <==> x in rows && t.products[x].inventory < LOW_INVENTORY
  {
    if |rows| == 0 then []
    else
      var rest := LowRows(t, rows[..|rows| - 1]);
      var last := rows[|rows| - 1];
      assert forall x :: x in rows <==> x in rows[..|rows| - 1] || x == last;
      if t.products[last].inventory < LOW_INVENTORY then rest + [last] else rest
  }

  /** `InventoryFilter.queryset` as written: it evaluates the filter for the
      '<10' choice but does not return it, so it always returns None. */
  function InventoryFilterQuerysetAsWritten(t: Tables, value: Option<string>, rows: seq<Id>): (r: Option<seq<Id>>)
    requires forall j :: 0 <= j < |rows| ==> rows[j] in t.products
    ensures r == None
  {
    if value == Some(LOW_LOOKUP) then
      var _ := LowRows(t, rows);
      None
    else None
  }

  /** The queryset as evidently intended: the filtered rows for '<10', and no
      narrowing when no choice is selected. */
  function InventoryFilterQueryset(t: Tables, value: Option<string>, rows: seq<Id>): (r: Option<seq<Id>>)
    requires forall j :: 0 <= j < |rows| ==> rows[j] in t.products
    ensures value == Some(LOW_LOOKUP) ==> r.Some?
    ensures value == Some(LOW_LOOKUP) ==>
      forall x :: x in r.value <==> x in rows && t.products[x].inventory < LOW_INVENTORY
    ensures value != Some(LOW_LOOKUP) ==> r == None
  {
    if value == Some(LOW_LOOKUP) then Some(LowRows(t, rows)) else None
  }

  /** Every product, in key order: the change list's starting queryset. */
  function AnyProduct(): Product -> bool
  {
    (p: Product) => true
  }

  function ProductIds(t: Tables): (ids: seq<Id>)
  {
    Where(t.products, AnyProduct(), t.next.product)
  }

  lemma ProductIdsMembers(t: Tables)
    requires KeysBelow(t.products, t.next.product)
    ensures forall x :: x in ProductIds(t) <==> x in t.products
    ensures forall j :: 0 <= j < |ProductIds(t)| ==> ProductIds(t)[j] in t.products
  {
    WhereMembers(t.products, AnyProduct(), t.next.product);
  }

  /** The change list keeps its queryset when a filter returns None. */
  function ApplyFilter(rows: seq<Id>, filtered: Option<seq<Id>>): (shown: seq<Id>)
  {
    match filtered
    case None => rows
    case Some(narrowed) => narrowed
  }

  /** The rows the product change list shows, with the filter as written. */
  function ChangeListRowsAsWritten(t: Tables, value: Option<string>): (shown: seq<Id>)
    requires WellFormed(t)
  {
    ProductIdsMembers(t);
    ApplyFilter(ProductIds(t), InventoryFilterQuerysetAsWritten(t, value, ProductIds(t)))
  }

  /** The rows the product change list shows, with the corrected filter. */
  function ChangeListRows(t: Tables, value: Option<string>): (shown: seq<Id>)
    requires WellFormed(t)
  {
    ProductIdsMembers(t);
    ApplyFilter(ProductIds(t), InventoryFilterQueryset(t, value, ProductIds(t)))
  }

  /** As written, choosing 'Low' lists every product: the filter never narrows. */
  lemma InventoryFilterNeverNarrows(t: Tables, value: Option<string>)
    requires WellFormed(t)
    ensures ChangeListRowsAsWritten(t, value) == ProductIds(t)
    ensures forall x :: x in ChangeListRowsAsWritten(t, value) <==> x in t.products
  {
    ProductIdsMembers(t);
  }

  /** A catalog with one low and one well-stocked product: choosing 'Low' as
      written still lists the well-stocked one, the corrected filter does not. */
  lemma InventoryFilterCounterexample()
    ensures
      var t := Tables(
        map[0 := Collection("c", None)],
        map[0 := Product("low", "low", "", 100, 5, 0, 0), 1 := Product("full", "full", "", 100, 20, 0, 0)],
        map[], map[], map[], map[], map[], map[],
        Sequences(1, 2, 0, 0, 0, 0, 0));
      && WellFormed(t)
      && 1 in ChangeListRowsAsWritten(t, Some(LOW_LOOKUP))
      && t.products[1].inventory >= LOW_INVENTORY
      && 1 !in ChangeListRows(t, Some(LOW_LOOKUP))
  {
    var t := Tables(
        map[0 := Collection("c", None)],
        map[0 := Product("low", "low", "", 100, 5, 0, 0), 1 := Product("full", "full", "", 100, 20, 0, 0)],
        map[], map[], map[], map[], map[], map[],
        Sequences(1, 2, 0, 0, 0, 0, 0));
    InventoryFilterNeverNarrows(t, Some(LOW_LOOKUP));
  }

  /** With the corrected filter, choosing 'Low' lists exactly the products
      whose status is 'Low', and no choice lists them all. */
  lemma InventoryFilterShowsLowRows(t: Tables)
    requires WellFormed(t)
    ensures forall x :: x in ChangeListRows(t, Some(LOW_LOOKUP)) <==>
      x in t.products && InventoryStatusOf(t.products[x]) == Low
    ensures ChangeListRows(t, None) == ProductIds(t)
  {
    ProductIdsMembers(t);
  }

  // ---------------------------------------------------------------------------
  // clear_inventory

  /** `queryset.update(inventory=0)`: one UPDATE over the selected rows. It is
      not a `save`, so `last_update` is not stamped. */
  function ClearedProducts(products: map<Id, Product>, selected: set<Id>): (cleared: map<Id, Product>)
    ensures cleared.Keys == products.Keys
    ensures forall p :: p in cleared ==>
      cleared[p] == products[p] || (p in selected && cleared[p] == products[p].(inventory := 0))
  {
    map p | p in products :: if p in selected then products[p].(inventory := 0) else products[p]
  }

  /** The selected products have no inventory left, every other product and
      every other field is as it was, and nothing but the products changes. */
  lemma ClearInventoryEffect(t: Tables, selected: set<Id>)
    ensures var after := ClearedProducts(t.products, selected);
      && after.Keys == t.products.Keys
      && (forall p :: p in after && p in selected ==> after[p].inventory == 0)
      && (forall p :: p in after && p !in selected ==> after[p] == t.products[p])
      && (forall p :: p in after ==> after[p] == t.products[p].(inventory := after[p].inventory))
  {
  }

  lemma ClearInventoryWellFormed(t: Tables, selected: set<Id>)
    requires WellFormed(t)
    ensures WellFormed(t.(products := ClearedProducts(t.products, selected)))
  {
  }

  /** After the action every selected product shows as 'Low'. */
  lemma ClearedShowLow(t: Tables, selected: set<Id>)
    ensures var after := ClearedProducts(t.products, selected);
      forall p :: p in after && p in selected ==> InventoryStatusOf(after[p]) == Low
  {
  }

  /** Clearing twice is clearing once. */
  lemma ClearInventoryIdempotent(t: Tables, selected: set<Id>)
    ensures ClearedProducts(ClearedProducts(t.products, selected), selected) == ClearedProducts(t.products, selected)
  {
  }

  /** The action on the database; the count is the number of selected rows the
      update matched, which the success message reports. */
  method ClearInventory(db: Db, selected: set<Id>) returns (updatedCount: nat)
    requires db.Valid()
    modifies db
    ensures db.Valid()
    ensures db.State() == old(db.State()).(products := ClearedProducts(old(db.products), selected))
    ensures updatedCount == |selected * old(db.products).Keys|
  {
    updatedCount := |selected * db.products.Keys|;
    db.products := map p | p in db.products :: if p in selected then db.products[p].(inventory := 0) else db.products[p];
    ClearInventoryWellFormed(old(db.State()), selected);
  }

  // ---------------------------------------------------------------------------
  // orders_count and products_count

  function OrderOfCustomer(customer: Id): Order -> bool
  {
    (o: Order) => o.customer == customer
  }

  function ProductOfCollection(collection: Id): Product -> bool
  {
    (p: Product) => p.collection == collection
  }

  /** The `Count('order')` annotation on a customer row. */
  function OrdersCount(t: Tables, customer: Id): (count: nat)
    ensures count <= t.next.order
    ensures (forall o :: o in t.orders ==> t.orders[o].customer != customer) ==> count == 0
  {
    WhereNoneWhen(t.orders, OrderOfCustomer(customer), t.next.order);
    |Where(t.orders, OrderOfCustomer(customer), t.next.order)|
  }

  /** The `Count('product')` annotation on a collection row. */
  function ProductsCount(t: Tables, collection: Id): (count: nat)
    ensures count <= t.next.product
    ensures (forall p :: p in t.products ==> t.products[p].collection != collection) ==> count == 0
  {
    WhereNoneWhen(t.products, ProductOfCollection(collection), t.next.product);
    |Where(t.products, ProductOfCollection(collection), t.next.product)|
  }

  lemma OrdersCountIsOrdersOfCustomer(t: Tables, customer: Id)
    requires WellFormed(t)
    ensures OrdersCount(t, customer) == |set o | o in t.orders && t.orders[o].customer == customer|
  {
    WhereCountOf(t.orders, OrderOfCustomer(customer), t.next.order,
                 set o | o in t.orders && t.orders[o].customer == customer);
  }

  lemma ProductsCountIsProductsOfCollection(t: Tables, collection: Id)
    requires WellFormed(t)
    ensures ProductsCount(t, collection) == |set p | p in t.products && t.products[p].collection == collection|
  {
    WhereCountOf(t.products, ProductOfCollection(collection), t.next.product,
                 set p | p in t.products && t.products[p].collection == collection);
  }

  /** A customer can be deleted exactly when the admin shows 0 orders for it. */
  lemma DeleteCustomerRefusedIffOrders(t: Tables, customer: Id)
    requires WellFormed(t)
    ensures DeleteCustomer(t, customer).Failure? <==> OrdersCount(t, customer) > 0
  {
    WhereMembers(t.orders, OrderOfCustomer(customer), t.next.order);
    var rows := Where(t.orders, OrderOfCustomer(customer), t.next.order);
    if |rows| > 0 {
      var o := rows[0];
      assert o in t.orders && t.orders[o].customer == customer;
    }
  }

  /** A collection can be deleted exactly when the admin shows 0 products for it. */
  lemma DeleteCollectionRefusedIffProducts(t: Tables, collection: Id)
    requires WellFormed(t)
    ensures DeleteCollection(t, collection).Failure? <==> ProductsCount(t, collection) > 0
  {
    WhereMembers(t.products, ProductOfCollection(collection), t.next.product);
    var rows := Where(t.products, ProductOfCollection(collection), t.next.product);
    if |rows| > 0 {
      var p := rows[0];
      assert p in t.products && t.products[p].collection == collection;
    }
  }

  /** A checkout adds one to the ordering customer's count and leaves every
      other customer's count alone. */
  lemma CheckoutCountsOneOrder(t: Tables, cartId: CartId, userId: Id, placedAt: Timestamp)
    requires WellFormed(t)
    requires ValidateCartId(t, cartId).Success?
    requires CheckoutSave(t, cartId, userId, placedAt).Success?
    ensures var after := CheckoutSave(t, cartId, userId, placedAt).value.0;
      var customer := ResolveCustomer(t, userId).value;
      && OrdersCount(after, customer) == OrdersCount(t, customer) + 1
      && (forall c :: c != customer ==> OrdersCount(after, c) == OrdersCount(t, c))
  {
    var after := CheckoutSave(t, cartId, userId, placedAt).value.0;
    var customer := ResolveCustomer(t, userId).value;
    var n := t.next.order;
    assert after.orders == t.orders[n := NewOrder(customer, placedAt)];
    assert after.next.order == n + 1;
    forall c
      ensures Where(after.orders, OrderOfCustomer(c), n) == Where(t.orders, OrderOfCustomer(c), n)
    {
      WhereFrame(after.orders, OrderOfCustomer(c), t.orders, OrderOfCustomer(c), n);
    }
  }
}
