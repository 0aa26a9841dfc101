/** Adding a product to a cart (`AddCartItemSerializer` in store/serializers.py):
    the same product added twice to a cart accumulates in one line instead of
    creating a second one. */
module AddCartItem {
  import opened Wrappers
  import opened Query
  import opened Models
  import opened Database
  import opened Serializers

  const MIN_QUANTITY_MESSAGE := "Ensure this value is greater than or equal to 0."
  const MAX_QUANTITY_MESSAGE := "Ensure this value is less than or equal to 32767."

  /** The field check DRF derives from the PositiveSmallIntegerField `quantity`. */
  function ValidateQuantity(quantity: int): (r: Result<int, Error>)
    ensures r.Success? <==> QuantityInRange(quantity)
    ensures r.Success? ==> r.value == quantity
    ensures quantity < 0 ==> r == Failure(ValidationError("quantity", MIN_QUANTITY_MESSAGE))
    ensures quantity > MAX_POSITIVE_SMALL ==> r == Failure(ValidationError("quantity", MAX_QUANTITY_MESSAGE))
  {
    if quantity < 0 then Failure(ValidationError("quantity", MIN_QUANTITY_MESSAGE))
    else if quantity > MAX_POSITIVE_SMALL then Failure(ValidationError("quantity", MAX_QUANTITY_MESSAGE))
    else Success(quantity)
  }

  /** The first line the (cart, product) query lists is such a line. */
  lemma FirstLine(t: Tables, cartId: CartId, productId: Id)
    ensures var lines := CartLineIds(t, cartId, productId);
      |lines| > 0 ==>
        lines[0] in t.cartItems && t.cartItems[lines[0]].cart == cartId && t.cartItems[lines[0]].product == productId
  {
    CartLineIdsMembers(t, cartId, productId);
  }

  /** The quantity the cart already holds of the product: that of its one line,
      or 0 when there is none. */
  function LineQuantity(t: Tables, cartId: CartId, productId: Id): (quantity: int)
  {
    var lines := CartLineIds(t, cartId, productId);
    FirstLine(t, cartId, productId);
    if |lines| == 1 then t.cartItems[lines[0]].quantity else 0
  }

  /** `save` after validation. `CartItem.objects.get(cart_id, product_id)`: one
      line has the quantity added (a sum past the column's range is refused by
      the database), two or more raise, none creates a new line, which the
      database refuses when the cart does not exist. The result is the new
      state and the key of the line written. */
  function SaveCartItem(t: Tables, cartId: CartId, productId: Id, quantity: int): (r: Result<(Tables, Id), Error>)
    requires KeysBelow(t.cartItems, t.next.cartItem)
    requires productId in t.products && QuantityInRange(quantity)
    ensures r.Failure? ==> r.error in {MultipleObjectsReturned("CartItem"), IntegrityError("cart_id"), DataError("quantity")}
    ensures r.Success? ==>
      var (after, id) := r.value;
      && id in after.cartItems
      && after.cartItems[id] ==
           CartItem(cartId, productId, (if id in t.cartItems then t.cartItems[id].quantity else 0) + quantity)
      && (forall i :: i in after.cartItems <==> i in t.cartItems || i == id)
      && (forall i :: i in t.cartItems && i != id ==> after.cartItems[i] == t.cartItems[i])
      && after.(cartItems := t.cartItems, next := t.next) == t
      && after.next.(cartItem := t.next.cartItem) == t.next
  {
    var lines := CartLineIds(t, cartId, productId);
    FirstLine(t, cartId, productId);
    if |lines| == 1 then
      var id := lines[0];
      var item := t.cartItems[id];
      if item.quantity + quantity > MAX_POSITIVE_SMALL then Failure(DataError("quantity"))
      else Success((t.(cartItems := t.cartItems[id := item.(quantity := item.quantity + quantity)]), id))
    else if |lines| > 1 then Failure(MultipleObjectsReturned("CartItem"))
    else if cartId !in t.carts then Failure(IntegrityError("cart_id"))
    else
      var id := t.next.cartItem;
      Success((t.(cartItems := t.cartItems[id := CartItem(cartId, productId, quantity)],
                  next := t.next.(cartItem := id + 1)), id))
  }

  /** Which outcome `save` has, by the number of lines the `get` finds. */
  lemma SaveCartItemCases(t: Tables, cartId: CartId, productId: Id, quantity: int)
    requires WellFormed(t)
    requires productId in t.products && QuantityInRange(quantity)
    ensures var r := SaveCartItem(t, cartId, productId, quantity);
      var lines := CartLineIds(t, cartId, productId);
      && (r == Failure(MultipleObjectsReturned("CartItem")) <==> |lines| > 1)
      && (r == Failure(IntegrityError("cart_id")) <==> |lines| == 0 && cartId !in t.carts)
      && (r == Failure(DataError("quantity")) <==>
            |lines| == 1 && LineQuantity(t, cartId, productId) + quantity > MAX_POSITIVE_SMALL)
      && (|lines| == 1 && r.Success? ==> r.value.1 == lines[0])
      && (|lines| == 0 && r.Success? ==> r.value.1 == t.next.cartItem && r.value.1 !in t.cartItems)
      && (r.Success? ==> r.value.0.cartItems[r.value.1].quantity == LineQuantity(t, cartId, productId) + quantity)
  {
  }

  /** The whole request: the field checks, then `save`. */
  function AddToCart(t: Tables, cartId: CartId, productId: int, quantity: int): (r: Result<(Tables, Id), Error>)
    requires WellFormed(t)
    ensures productId !in t.products ==> r == Failure(ValidationError("product_id", NO_PRODUCT_MESSAGE))
    ensures productId in t.products && !QuantityInRange(quantity) ==> r == Failure(ValidateQuantity(quantity).error)
    ensures productId in t.products && QuantityInRange(quantity) ==> r == SaveCartItem(t, cartId, productId, quantity)
  {
    match ValidateProductId(t, productId)
    case Failure(e) => Failure(e)
    case Success(p) =>
      match ValidateQuantity(quantity)
      case Failure(e) => Failure(e)
      case Success(q) => SaveCartItem(t, cartId, p, q)
  }

  /** At most one line per product in each cart. */
  ghost predicate UniqueCartLines(t: Tables)
  {
    forall i, j ::
      (i in t.cartItems && j in t.cartItems && t.cartItems[i].cart == t.cartItems[j].cart &&
       t.cartItems[i].product == t.cartItems[j].product) ==> i == j
  }

  lemma UniqueLinesAtMostOne(t: Tables, cartId: CartId, productId: Id)
    requires UniqueCartLines(t)
    ensures |CartLineIds(t, cartId, productId)| <= 1
  {
    FirstTwoLines(t, cartId, productId);
  }

  /** When the query lists two lines, its first two are distinct lines of the
      same product in the same cart. */
  lemma FirstTwoLines(t: Tables, cartId: CartId, productId: Id)
    ensures var lines := CartLineIds(t, cartId, productId);
      |lines| > 1 ==>
        && lines[0] < lines[1]
        && lines[0] in t.cartItems && lines[1] in t.cartItems
        && t.cartItems[lines[0]].cart == cartId == t.cartItems[lines[1]].cart
        && t.cartItems[lines[0]].product == productId == t.cartItems[lines[1]].product
  {
    CartLineIdsMembers(t, cartId, productId);
    WhereIncreasing(t.cartItems, LineOf(cartId, productId), t.next.cartItem);
  }

  /** Saving never creates a second line for a product, and while lines are
      unique the `get` never finds two. */
  lemma SaveCartItemKeepsLinesUnique(t: Tables, cartId: CartId, productId: Id, quantity: int)
    requires WellFormed(t) && UniqueCartLines(t)
    requires productId in t.products && QuantityInRange(quantity)
    ensures SaveCartItem(t, cartId, productId, quantity) != Failure(MultipleObjectsReturned("CartItem"))
    ensures SaveCartItem(t, cartId, productId, quantity).Success? ==>
      UniqueCartLines(SaveCartItem(t, cartId, productId, quantity).value.0)
  {
    UniqueLinesAtMostOne(t, cartId, productId);
    CartLineIdsMembers(t, cartId, productId);
  }

  lemma SaveCartItemWellFormed(t: Tables, cartId: CartId, productId: Id, quantity: int)
    requires WellFormed(t)
    requires productId in t.products && QuantityInRange(quantity)
    requires SaveCartItem(t, cartId, productId, quantity).Success?
    ensures WellFormed(SaveCartItem(t, cartId, productId, quantity).value.0)
  {
    var lines := CartLineIds(t, cartId, productId);
    FirstLine(t, cartId, productId);
    var id := SaveCartItem(t, cartId, productId, quantity).value.1;
    if |lines| == 1 {
      BumpWellFormed(t, id, t.cartItems[id].quantity + quantity);
    } else {
      InsertWellFormed(t, CartItem(cartId, productId, quantity));
    }
  }

  lemma BumpWellFormed(t: Tables, id: Id, quantity: int)
    requires WellFormed(t) && id in t.cartItems && QuantityInRange(quantity)
    ensures WellFormed(t.(cartItems := t.cartItems[id := t.cartItems[id].(quantity := quantity)]))
  {
  }

  lemma InsertWellFormed(t: Tables, item: CartItem)
    requires WellFormed(t) && item.cart in t.carts && item.product in t.products && QuantityInRange(item.quantity)
    ensures WellFormed(t.(cartItems := t.cartItems[t.next.cartItem := item],
                          next := t.next.(cartItem := t.next.cartItem + 1)))
  {
  }

  /** Two sums over the same keys agree when the rows they read agree. */
  lemma {:induction false} SumItemTotalsFrame(t: Tables, u: Tables, ids: seq<Id>)
    requires PricedItems(t, ids) && u.products == t.products
    requires forall j :: 0 <= j < |ids| ==> ids[j] in u.cartItems && u.cartItems[ids[j]] == t.cartItems[ids[j]]
    ensures PricedItems(u, ids)
    ensures SumItemTotals(u, ids) == SumItemTotals(t, ids)
  {
    if |ids| > 0 {
      SumItemTotalsFrame(t, u, ids[..|ids| - 1]);
    }
  }

  /** Raising one row's quantity by `delta` raises a sum over increasing keys by
      `delta` times the price, when the row is listed. */
  lemma {:induction false} SumItemTotalsBump(t: Tables, u: Tables, ids: seq<Id>, id: Id, delta: int)
    requires PricedItems(t, ids) && u.products == t.products
    requires id in t.cartItems && t.cartItems[id].product in t.products
    requires u.cartItems == t.cartItems[id := t.cartItems[id].(quantity := t.cartItems[id].quantity + delta)]
    requires forall i, j :: 0 <= i < j < |ids| ==> ids[i] < ids[j]
    ensures PricedItems(u, ids)
    ensures SumItemTotals(u, ids) ==
      SumItemTotals(t, ids) + (if id in ids then delta * t.products[t.cartItems[id].product].unitPrice else 0)
  {
    if |ids| > 0 {
      var prefix := ids[..|ids| - 1];
      SumItemTotalsBump(t, u, prefix, id, delta);
      if ids[|ids| - 1] == id {
        assert id !in prefix by {
          forall k | 0 <= k < |prefix| ensures prefix[k] != id {
            assert ids[k] < ids[|ids| - 1];
          }
        }
      } else {
        assert id in ids <==> id in prefix by {
          if id in ids {
            var k :| 0 <= k < |ids| && ids[k] == id;
            assert prefix[k] == id;
          }
        }
      }
    }
  }

  /** A saved item raises its cart's total by quantity times the product's
      price and leaves every other cart's total as it was. */
  lemma SaveCartItemTotal(t: Tables, cartId: CartId, productId: Id, quantity: int)
    requires WellFormed(t)
    requires productId in t.products && QuantityInRange(quantity)
    requires SaveCartItem(t, cartId, productId, quantity).Success?
    ensures WellFormed(SaveCartItem(t, cartId, productId, quantity).value.0)
    ensures CartTotal(SaveCartItem(t, cartId, productId, quantity).value.0, cartId) ==
      CartTotal(t, cartId) + quantity * t.products[productId].unitPrice
    ensures forall c :: c != cartId ==>
      CartTotal(SaveCartItem(t, cartId, productId, quantity).value.0, c) == CartTotal(t, c)
  {
    SaveCartItemWellFormed(t, cartId, productId, quantity);
    var (after, id) := SaveCartItem(t, cartId, productId, quantity).value;
    var lines := CartLineIds(t, cartId, productId);
    FirstLine(t, cartId, productId);
    if |lines| == 1 {
      var item := t.cartItems[id];
      assert after == t.(cartItems := t.cartItems[id := item.(quantity := item.quantity + quantity)]);
      UpdatedLineTotals(t, after, cartId, productId, id, quantity);
    } else {
      assert |lines| == 0;
      InsertedLineTotals(t, after, cartId, productId, id, quantity);
    }
  }

  lemma UpdatedLineTotals(t: Tables, after: Tables, cartId: CartId, productId: Id, id: Id, quantity: int)
    requires WellFormed(t) && WellFormed(after)
    requires id in t.cartItems && t.cartItems[id].cart == cartId && t.cartItems[id].product == productId
    requires productId in t.products
    requires after == t.(cartItems := t.cartItems[id := t.cartItems[id].(quantity := t.cartItems[id].quantity + quantity)])
    ensures CartTotal(after, cartId) == CartTotal(t, cartId) + quantity * t.products[productId].unitPrice
    ensures forall c :: c != cartId ==> CartTotal(after, c) == CartTotal(t, c)
  {
    forall c
      ensures CartItemIds(after, c) == CartItemIds(t, c)
    {
      WhereFrame(after.cartItems, ItemOfCart(c), t.cartItems, ItemOfCart(c), t.next.cartItem);
    }
    forall c
      ensures CartTotal(after, c) ==
        CartTotal(t, c) + (if id in CartItemIds(t, c) then quantity * t.products[productId].unitPrice else 0)
    {
      CartItemIdsPriced(t, c);
      WhereIncreasing(t.cartItems, ItemOfCart(c), t.next.cartItem);
      SumItemTotalsBump(t, after, CartItemIds(t, c), id, quantity);
    }
    forall c
      ensures id in CartItemIds(t, c) <==> c == cartId
    {
      CartItemIdsMembers(t, c);
    }
  }

  lemma InsertedLineTotals(t: Tables, after: Tables, cartId: CartId, productId: Id, id: Id, quantity: int)
    requires WellFormed(t) && WellFormed(after)
    requires productId in t.products
    requires id == t.next.cartItem
    requires after == t.(cartItems := t.cartItems[id := CartItem(cartId, productId, quantity)],
                         next := t.next.(cartItem := id + 1))
    ensures CartTotal(after, cartId) == CartTotal(t, cartId) + quantity * t.products[productId].unitPrice
    ensures forall c :: c != cartId ==> CartTotal(after, c) == CartTotal(t, c)
  {
    InsertedLineOwnCart(t, after, cartId, productId, id, quantity);
    forall c | c != cartId
      ensures CartTotal(after, c) == CartTotal(t, c)
    {
      InsertedLineKeepsOlder(t, after, c, CartItem(cartId, productId, quantity));
      WhereBeyond(after.cartItems, ItemOfCart(c), id, id + 1);
    }
  }

  /** The insert case for the line's own cart: its item listing gains the new key last. */
  lemma InsertedLineOwnCart(t: Tables, after: Tables, cartId: CartId, productId: Id, id: Id, quantity: int)
    requires WellFormed(t) && WellFormed(after)
    requires productId in t.products
    requires id == t.next.cartItem
    requires after == t.(cartItems := t.cartItems[id := CartItem(cartId, productId, quantity)],
                         next := t.next.(cartItem := id + 1))
    ensures CartTotal(after, cartId) == CartTotal(t, cartId) + quantity * t.products[productId].unitPrice
  {
    InsertedLineKeepsOlder(t, after, cartId, CartItem(cartId, productId, quantity));
    var ids := CartItemIds(t, cartId);
    assert CartItemIds(after, cartId) == ids + [id];
    assert (ids + [id])[..|ids|] == ids;
  }

  /** Below the new key the inserted line's table is the old one, so each cart's
      old items and total are read back unchanged. */
  lemma InsertedLineKeepsOlder(t: Tables, u: Tables, c: CartId, item: CartItem)
    requires WellFormed(t)
    requires u.cartItems == t.cartItems[t.next.cartItem := item] && u.products == t.products
    ensures Where(u.cartItems, ItemOfCart(c), t.next.cartItem) == CartItemIds(t, c)
    ensures PricedItems(u, CartItemIds(t, c))
    ensures SumItemTotals(u, CartItemIds(t, c)) == CartTotal(t, c)
  {
    WhereFrame(u.cartItems, ItemOfCart(c), t.cartItems, ItemOfCart(c), t.next.cartItem);
    CartItemIdsPriced(t, c);
    CartItemIdsMembers(t, c);
    SumItemTotalsFrame(t, u, CartItemIds(t, c));
  }

  /** Saving the same product twice into a cart whose lines are unique: the
      second save finds the line the first wrote and adds to it, or the sum
      overflows the column. */
  lemma AddTwiceAccumulates(t: Tables, cartId: CartId, productId: Id, q1: int, q2: int)
    requires WellFormed(t) && UniqueCartLines(t)
    requires productId in t.products && QuantityInRange(q1) && QuantityInRange(q2)
    requires SaveCartItem(t, cartId, productId, q1).Success?
    ensures var (u, id) := SaveCartItem(t, cartId, productId, q1).value;
      WellFormed(u) &&
      var total := LineQuantity(t, cartId, productId) + q1 + q2;
      && (total > MAX_POSITIVE_SMALL ==> SaveCartItem(u, cartId, productId, q2) == Failure(DataError("quantity")))
      && (total <= MAX_POSITIVE_SMALL ==>
            && SaveCartItem(u, cartId, productId, q2).Success?
            && SaveCartItem(u, cartId, productId, q2).value.1 == id
            && SaveCartItem(u, cartId, productId, q2).value.0.cartItems[id] == CartItem(cartId, productId, total))
  {
    var (u, id) := SaveCartItem(t, cartId, productId, q1).value;
    SaveCartItemWellFormed(t, cartId, productId, q1);
    SaveCartItemKeepsLinesUnique(t, cartId, productId, q1);
    UniqueLinesAtMostOne(u, cartId, productId);
    CartLineIdsMembers(u, cartId, productId);
    assert id in CartLineIds(u, cartId, productId);
    var lines := CartLineIds(u, cartId, productId);
    assert |lines| == 1 && lines[0] == id;
  }

  /** A line already at the column's maximum takes no more. */
  lemma FullLineOverflows()
    ensures
      var t := Tables(
        map[0 := Collection("c", None)],
        map[0 := Product("p", "p", "", 100, 1, 0, 0)],
        map[], map[],
        map[7 := Cart(0)],
        map[0 := CartItem(7, 0, MAX_POSITIVE_SMALL)],
        map[], map[],
        Sequences(1, 1, 0, 0, 1, 0, 0));
      WellFormed(t) && SaveCartItem(t, 7, 0, 1) == Failure(DataError("quantity"))
  {
    var t := Tables(
        map[0 := Collection("c", None)],
        map[0 := Product("p", "p", "", 100, 1, 0, 0)],
        map[], map[],
        map[7 := Cart(0)],
        map[0 := CartItem(7, 0, MAX_POSITIVE_SMALL)],
        map[], map[],
        Sequences(1, 1, 0, 0, 1, 0, 0));
    assert Where(t.cartItems, LineOf(7, 0), 0) == [];
    assert CartLineIds(t, 7, 0) == [0];
  }

  /** While each cart holds a product in one line, the order a checkout places
      holds each product in one order item. */
  lemma CheckoutDistinctProducts(t: Tables, cartId: CartId, userId: Id, placedAt: Timestamp)
    requires WellFormed(t) && UniqueCartLines(t)
    requires ValidateCartId(t, cartId).Success?
    requires CheckoutSave(t, cartId, userId, placedAt).Success?
    ensures var after := CheckoutSave(t, cartId, userId, placedAt).value.0;
      var items := OrderItemIds(after, CheckoutSave(t, cartId, userId, placedAt).value.1);
      && (forall j :: 0 <= j < |items| ==> items[j] in after.orderItems)
      && (forall j, k :: 0 <= j < k < |items| ==> after.orderItems[items[j]].product != after.orderItems[items[k]].product)
  {
    var after := CheckoutSave(t, cartId, userId, placedAt).value.0;
    var lines := CartItemIds(t, cartId);
    CheckoutCopiesCartItems(t, cartId, userId, placedAt);
    CartItemIdsMembers(t, cartId);
    WhereIncreasing(t.cartItems, ItemOfCart(cartId), t.next.cartItem);
    forall j, k | 0 <= j < k < |lines|
      ensures t.cartItems[lines[j]].product != t.cartItems[lines[k]].product
    {
      assert lines[j] < lines[k];
    }
  }

  /** `save` on the database. */
  method SaveItem(db: Db, cartId: CartId, productId: Id, quantity: int) returns (r: Result<Id, Error>)
    requires db.Valid()
    requires productId in db.products && QuantityInRange(quantity)
    modifies db
    ensures db.Valid()
    ensures match SaveCartItem(old(db.State()), cartId, productId, quantity)
      case Success(saved) => r == Success(saved.1) && db.State() == saved.0
      case Failure(e) => r == Failure(e) && db.State() == old(db.State())
  {
    ghost var before := db.State();
    var lines := CartLineIds(db.State(), cartId, productId);
    CartLineIdsMembers(before, cartId, productId);
    ghost var spec := SaveCartItem(before, cartId, productId, quantity);
    if |lines| == 1 {
      var id := lines[0];
      var item := db.cartItems[id];
      if item.quantity + quantity > MAX_POSITIVE_SMALL {
        return Failure(DataError("quantity"));
      }
      db.cartItems := db.cartItems[id := item.(quantity := item.quantity + quantity)];
      r := Success(id);
      assert db.State() == spec.value.0;
    } else if |lines| > 1 {
      return Failure(MultipleObjectsReturned("CartItem"));
    } else if cartId !in db.carts {
      return Failure(IntegrityError("cart_id"));
    } else {
      var id := db.next.cartItem;
      db.cartItems := db.cartItems[id := CartItem(cartId, productId, quantity)];
      db.next := db.next.(cartItem := id + 1);
      r := Success(id);
      assert db.State() == spec.value.0;
    }
    SaveCartItemWellFormed(before, cartId, productId, quantity);
  }
}
