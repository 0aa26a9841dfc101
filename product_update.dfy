/** Editing a product (`ProductSerializer.update` in store/serializers.py): the
    update writes the title, the unit price and the collection from the
    validated data, then saves the whole row, which stamps `last_update`. */
module ProductUpdate {
  import opened Wrappers
  import opened Query
  import opened Models
  import opened Database
  import opened Serializers

  /** The validated data of a request; a field the request did not send (a
      partial update) is absent. */
  datatype ProductData = ProductData(
    title: Option<string>, slug: Option<string>, description: Option<string>,
    inventory: Option<int>, unitPrice: Option<Cents>, collection: Option<Id>)

  /** What field validation guarantees of the fields that are present: the
      price fits `max_digits=6, decimal_places=2`, the inventory fits an
      IntegerField and the collection exists. */
  ghost predicate ValidatedData(t: Tables, d: ProductData)
  {
    && (d.unitPrice.Some? ==> PriceInRange(d.unitPrice.value))
    && (d.inventory.Some? ==> IntegerInRange(d.inventory.value))
    && (d.collection.Some? ==> d.collection.value in t.collections)
  }

  /** `update` then `save`. `validated_data.get` yields None for an absent
      field; saving None into a NOT NULL column is refused, the columns being
      checked in table order. On success only the product's row changes. */
  function UpdateProductRow(t: Tables, productId: Id, d: ProductData, now: Timestamp): (r: Result<Tables, Error>)
    requires WellFormed(t)
    requires productId in t.products && ValidatedData(t, d)
    ensures r.Success? <==> d.title.Some? && d.unitPrice.Some? && d.collection.Some?
    ensures d.title.None? ==> r == Failure(IntegrityError("title"))
    ensures d.title.Some? && d.unitPrice.None? ==> r == Failure(IntegrityError("unit_price"))
    ensures d.title.Some? && d.unitPrice.Some? && d.collection.None? ==> r == Failure(IntegrityError("collection_id"))
    ensures r.Success? ==>
      && productId in r.value.products
      && r.value.products.Keys == t.products.Keys
      && (forall p :: p in t.products && p != productId ==> r.value.products[p] == t.products[p])
      && r.value.(products := t.products) == t
  {
    if d.title.None? then Failure(IntegrityError("title"))
    else if d.unitPrice.None? then Failure(IntegrityError("unit_price"))
    else if d.collection.None? then Failure(IntegrityError("collection_id"))
    else
      var row := t.products[productId];
      Success(t.(products := t.products[productId := row.(
        title := d.title.value, unitPrice := d.unitPrice.value,
        collection := d.collection.value, lastUpdate := now)]))
  }

  /** The saved row takes the sent title, price and collection and the save
      time; its slug, description and inventory stay as stored, whatever the
      request sent for them. */
  lemma UpdateWritesThreeFields(t: Tables, productId: Id, d: ProductData, now: Timestamp)
    requires WellFormed(t)
    requires productId in t.products && ValidatedData(t, d)
    requires UpdateProductRow(t, productId, d, now).Success?
    ensures var before := t.products[productId];
      var after := UpdateProductRow(t, productId, d, now).value.products[productId];
      && Some(after.title) == d.title
      && Some(after.unitPrice) == d.unitPrice
      && Some(after.collection) == d.collection
      && after.lastUpdate == now
      && after.slug == before.slug
      && after.description == before.description
      && after.inventory == before.inventory
  {
  }

  lemma UpdateProductRowWellFormed(t: Tables, productId: Id, d: ProductData, now: Timestamp)
    requires WellFormed(t)
    requires productId in t.products && ValidatedData(t, d)
    requires UpdateProductRow(t, productId, d, now).Success?
    ensures WellFormed(UpdateProductRow(t, productId, d, now).value)
  {
  }

  /** Sending the same data again changes nothing but the save time. */
  lemma UpdateIdempotent(t: Tables, productId: Id, d: ProductData, now: Timestamp, later: Timestamp)
    requires WellFormed(t)
    requires productId in t.products && ValidatedData(t, d)
    requires UpdateProductRow(t, productId, d, now).Success?
    ensures WellFormed(UpdateProductRow(t, productId, d, now).value)
    ensures UpdateProductRow(UpdateProductRow(t, productId, d, now).value, productId, d, later) ==
      UpdateProductRow(t, productId, d, later)
  {
    var u := UpdateProductRow(t, productId, d, now).value;
    var row := t.products[productId];
    var stamped := row.(title := d.title.value, unitPrice := d.unitPrice.value,
                        collection := d.collection.value, lastUpdate := later);
    assert u.products[productId].(title := d.title.value, unitPrice := d.unitPrice.value,
                                  collection := d.collection.value, lastUpdate := later) == stamped;
    assert u.products[productId := stamped] == t.products[productId := stamped];
  }

  /** Orders keep the price they were placed at: a price change leaves every
      order's total as it was. */
  lemma UpdateKeepsOrderTotals(t: Tables, productId: Id, d: ProductData, now: Timestamp)
    requires WellFormed(t)
    requires productId in t.products && ValidatedData(t, d)
    requires UpdateProductRow(t, productId, d, now).Success?
    ensures forall o :: OrderTotal(UpdateProductRow(t, productId, d, now).value, o) == OrderTotal(t, o)
  {
    var u := UpdateProductRow(t, productId, d, now).value;
    forall o
      ensures OrderTotal(u, o) == OrderTotal(t, o)
    {
      assert OrderItemIds(u, o) == OrderItemIds(t, o);
      OrderItemIdsMembers(t, o);
      SumOrderLinesFrame(t, u, OrderItemIds(t, o));
    }
  }

  /** Two sums over the same order items agree when the order-item rows agree. */
  lemma {:induction false} SumOrderLinesFrame(t: Tables, u: Tables, ids: seq<Id>)
    requires u.orderItems == t.orderItems
    requires forall j :: 0 <= j < |ids| ==> ids[j] in t.orderItems
    ensures SumOrderLines(u, ids) == SumOrderLines(t, ids)
  {
    if |ids| > 0 {
      SumOrderLinesFrame(t, u, ids[..|ids| - 1]);
    }
  }

  /** Two sums over the same cart items agree when the products they price
      agree. */
  lemma {:induction false} SumItemTotalsPrices(t: Tables, u: Tables, ids: seq<Id>)
    requires PricedItems(t, ids) && u.cartItems == t.cartItems
    requires forall j :: 0 <= j < |ids| ==>
      var p := t.cartItems[ids[j]].product; p in u.products && u.products[p].unitPrice == t.products[p].unitPrice
    ensures PricedItems(u, ids)
    ensures SumItemTotals(u, ids) == SumItemTotals(t, ids)
  {
    if |ids| > 0 {
      SumItemTotalsPrices(t, u, ids[..|ids| - 1]);
    }
  }

  /** Carts, unlike orders, are priced live: a cart's total moves with the
      price only when the cart holds the product. */
  lemma UpdateRepricesOnlyCartsHoldingIt(t: Tables, productId: Id, d: ProductData, now: Timestamp, cart: CartId)
    requires WellFormed(t)
    requires productId in t.products && ValidatedData(t, d)
    requires UpdateProductRow(t, productId, d, now).Success?
    requires forall i :: i in t.cartItems && t.cartItems[i].cart == cart ==> t.cartItems[i].product != productId
    ensures WellFormed(UpdateProductRow(t, productId, d, now).value)
    ensures CartTotal(UpdateProductRow(t, productId, d, now).value, cart) == CartTotal(t, cart)
  {
    var u := UpdateProductRow(t, productId, d, now).value;
    assert u.cartItems == t.cartItems && u.next == t.next;
    CartItemIdsPriced(t, cart);
    CartItemIdsMembers(t, cart);
    SumItemTotalsPrices(t, u, CartItemIds(t, cart));
  }

  /** `update` on the database; the result is the saved row. */
  method UpdateProduct(db: Db, productId: Id, d: ProductData, now: Timestamp) returns (r: Result<Product, Error>)
    requires db.Valid()
    requires productId in db.products && ValidatedData(db.State(), d)
    modifies db
    ensures db.Valid()
    ensures match UpdateProductRow(old(db.State()), productId, d, now)
      case Success(after) => db.State() == after && r == Success(after.products[productId])
      case Failure(e) => r == Failure(e) && db.State() == old(db.State())
  {
    if d.title.None? {
      return Failure(IntegrityError("title"));
    }
    if d.unitPrice.None? {
      return Failure(IntegrityError("unit_price"));
    }
    if d.collection.None? {
      return Failure(IntegrityError("collection_id"));
    }
    var instance := db.products[productId];
    instance := instance.(title := d.title.value);
    instance := instance.(unitPrice := d.unitPrice.value);
    instance := instance.(collection := d.collection.value);
    instance := instance.(lastUpdate := now);
    db.products := db.products[productId := instance];
    r := Success(instance);
  }
}
