/** The cart and checkout queries and serializers of store/serializers.py: the
    field validators, the item and cart totals, and placing an order
    (`CreateOrderSerializer`), whose `save` is a method on the database `Db`
    proved to produce the state the pure function `CheckoutSave` describes;
    what that function promises is proved as lemmas. Adding to a cart and the
    product update are in their own modules. */
module Serializers {
  import opened Wrappers
  import opened Query
  import opened Models
  import opened Database

  const NO_CART_MESSAGE := "No cart with the given id was found"
  const EMPTY_CART_MESSAGE := "The cart is empty"
  const NO_PRODUCT_MESSAGE := "No product with given ID"

  // ---------------------------------------------------------------------------
  // Queries

  /** The row tests the queries filter on. */
  function ItemOfCart(cart: CartId): CartItem -> bool
  {
    (item: CartItem) => item.cart == cart
  }

  function LineOf(cart: CartId, product: Id): CartItem -> bool
  {
    (item: CartItem) => item.cart == cart && item.product == product
  }

  function ItemOfOrder(order: Id): OrderItem -> bool
  {
    (item: OrderItem) => item.order == order
  }

  function CustomerOfUser(user: Id): Customer -> bool
  {
    (c: Customer) => c.userId == user
  }

  /** `CartItem.objects.filter(cart_id=cart)`, read in key order. */
  function CartItemIds(t: Tables, cart: CartId): (ids: seq<Id>)
  {
    Where(t.cartItems, ItemOfCart(cart), t.next.cartItem)
  }

  /** `CartItem.objects.filter(cart_id=cart, product_id=product)`. */
  function CartLineIds(t: Tables, cart: CartId, product: Id): (ids: seq<Id>)
  {
    Where(t.cartItems, LineOf(cart, product), t.next.cartItem)
  }

  /** The items of an order, in key order. */
  function OrderItemIds(t: Tables, order: Id): (ids: seq<Id>)
  {
    Where(t.orderItems, ItemOfOrder(order), t.next.orderItem)
  }

  /** `Customer.objects.filter(user_id=user)`. */
  function CustomerIdsForUser(t: Tables, user: Id): (ids: seq<Id>)
  {
    Where(t.customers, CustomerOfUser(user), t.next.customer)
  }

  lemma CartItemIdsMembers(t: Tables, cart: CartId)
    ensures forall x :: x in CartItemIds(t, cart) <==>
      0 <= x < t.next.cartItem && x in t.cartItems && t.cartItems[x].cart == cart
    ensures forall j :: 0 <= j < |CartItemIds(t, cart)| ==>
      var x := CartItemIds(t, cart)[j]; 0 <= x < t.next.cartItem && x in t.cartItems && t.cartItems[x].cart == cart
  {
    WhereMembers(t.cartItems, ItemOfCart(cart), t.next.cartItem);
  }

  lemma CartLineIdsMembers(t: Tables, cart: CartId, product: Id)
    ensures forall x :: x in CartLineIds(t, cart, product) <==>
      0 <= x < t.next.cartItem && x in t.cartItems && t.cartItems[x].cart == cart && t.cartItems[x].product == product
    ensures forall j :: 0 <= j < |CartLineIds(t, cart, product)| ==>
      var x := CartLineIds(t, cart, product)[j];
      0 <= x < t.next.cartItem && x in t.cartItems && t.cartItems[x].cart == cart && t.cartItems[x].product == product
  {
    WhereMembers(t.cartItems, LineOf(cart, product), t.next.cartItem);
  }

  lemma OrderItemIdsMembers(t: Tables, order: Id)
    ensures forall x :: x in OrderItemIds(t, order) <==>
      0 <= x < t.next.orderItem && x in t.orderItems && t.orderItems[x].order == order
    ensures forall j :: 0 <= j < |OrderItemIds(t, order)| ==>
      var x := OrderItemIds(t, order)[j]; 0 <= x < t.next.orderItem && x in t.orderItems && t.orderItems[x].order == order
  {
    WhereMembers(t.orderItems, ItemOfOrder(order), t.next.orderItem);
  }

  lemma CustomerIdsMembers(t: Tables, user: Id)
    ensures forall x :: x in CustomerIdsForUser(t, user) <==>
      0 <= x < t.next.customer && x in t.customers && t.customers[x].userId == user
    ensures forall j :: 0 <= j < |CustomerIdsForUser(t, user)| ==>
      var x := CustomerIdsForUser(t, user)[j]; 0 <= x < t.next.customer && x in t.customers && t.customers[x].userId == user
  {
    WhereMembers(t.customers, CustomerOfUser(user), t.next.customer);
  }

  // ---------------------------------------------------------------------------
  // CreateOrderSerializer.validate_cart_id and AddCartItemSerializer.validate_product_id

  /** The cart must exist, and then must not be empty; the id is returned as is. */
  function ValidateCartId(t: Tables, cartId: CartId): (r: Result<CartId, Error>)
    ensures cartId !in t.carts ==> r == Failure(ValidationError("cart_id", NO_CART_MESSAGE))
    ensures r.Success? ==> r.value == cartId
  {
    if cartId !in t.carts then Failure(ValidationError("cart_id", NO_CART_MESSAGE))
    else if |CartItemIds(t, cartId)| == 0 then Failure(ValidationError("cart_id", EMPTY_CART_MESSAGE))
    else Success(cartId)
  }

  /** The three outcomes of `validate_cart_id`, each in both directions. An unknown
      cart has no items either, so the order of the two checks decides which
      message it gets: the not-found one. */
  lemma ValidateCartIdCases(t: Tables, cartId: CartId)
    requires WellFormed(t)
    ensures cartId !in t.carts ==> |CartItemIds(t, cartId)| == 0
    ensures ValidateCartId(t, cartId) == Failure(ValidationError("cart_id", NO_CART_MESSAGE)) <==> cartId !in t.carts
    ensures ValidateCartId(t, cartId) == Failure(ValidationError("cart_id", EMPTY_CART_MESSAGE)) <==>
      cartId in t.carts && forall i :: i in t.cartItems ==> t.cartItems[i].cart != cartId
    ensures ValidateCartId(t, cartId) == Success(cartId) <==>
      cartId in t.carts && exists i :: i in t.cartItems && t.cartItems[i].cart == cartId
  {
    CartItemIdsMembers(t, cartId);
    var ids := CartItemIds(t, cartId);
    if |ids| > 0 {
      var first := ids[0];
      assert first in ids;
    }
  }

  /** The product must exist; the id is returned as is. */
  function ValidateProductId(t: Tables, productId: int): (r: Result<int, Error>)
    ensures r.Success? <==> productId in t.products
    ensures r.Success? ==> r.value == productId
    ensures r.Failure? ==> r.error == ValidationError("product_id", NO_PRODUCT_MESSAGE)
  {
    if productId !in t.products then Failure(ValidationError("product_id", NO_PRODUCT_MESSAGE))
    else Success(productId)
  }

  // ---------------------------------------------------------------------------
  // CartItemSerializer.get_total_price and CartSerializer.get_total_price

  /** The largest line total, in magnitude, that a stored quantity and price give. */
  const MAX_LINE_TOTAL := MAX_POSITIVE_SMALL * MAX_PRICE_CENTS

  lemma ProductOfNonNegatives(a: int, b: int)
    requires 0 <= a && 0 <= b
    ensures 0 <= a * b
  {
  }

  lemma LineTotalBound(q: int, p: Cents)
    ensures QuantityInRange(q) && PriceInRange(p) ==> -MAX_LINE_TOTAL <= q * p <= MAX_LINE_TOTAL
  {
    if QuantityInRange(q) && PriceInRange(p) {
      ProductOfNonNegatives(q, MAX_PRICE_CENTS - p);
      ProductOfNonNegatives(q, MAX_PRICE_CENTS + p);
      ProductOfNonNegatives(MAX_POSITIVE_SMALL - q, MAX_PRICE_CENTS);
      assert q * (MAX_PRICE_CENTS - p) == q * MAX_PRICE_CENTS - q * p;
      assert q * (MAX_PRICE_CENTS + p) == q * MAX_PRICE_CENTS + q * p;
      assert (MAX_POSITIVE_SMALL - q) * MAX_PRICE_CENTS == MAX_LINE_TOTAL - q * MAX_PRICE_CENTS;
    }
  }

  /** An item's total: its quantity times its product's current unit price,
      read at the time of the call. */
  function ItemTotal(t: Tables, item: CartItem): (total: Cents)
    requires item.product in t.products
    ensures item.quantity == 0 ==> total == 0
    ensures 0 <= item.quantity && 0 <= t.products[item.product].unitPrice ==> 0 <= total
    ensures QuantityInRange(item.quantity) && PriceInRange(t.products[item.product].unitPrice) ==>
      -MAX_LINE_TOTAL <= total <= MAX_LINE_TOTAL
  {
    LineTotalBound(item.quantity, t.products[item.product].unitPrice);
    item.quantity * t.products[item.product].unitPrice
  }

  /** Every listed key is a cart item whose product exists. */
  ghost predicate PricedItems(t: Tables, ids: seq<Id>)
  {
    forall j :: 0 <= j < |ids| ==> ids[j] in t.cartItems && t.cartItems[ids[j]].product in t.products
  }

  /** The sum of the item totals of the listed cart items, added up in order. */
  function SumItemTotals(t: Tables, ids: seq<Id>): (sum: Cents)
    requires PricedItems(t, ids)
  {
    if |ids| == 0 then 0
    else SumItemTotals(t, ids[..|ids| - 1]) + ItemTotal(t, t.cartItems[ids[|ids| - 1]])
  }

  /** Items with non-negative quantities and prices add up to a non-negative sum. */
  lemma {:induction false} SumItemTotalsNonNegative(t: Tables, ids: seq<Id>)
    requires PricedItems(t, ids)
    ensures (forall j :: 0 <= j < |ids| ==>
               0 <= t.cartItems[ids[j]].quantity && 0 <= t.products[t.cartItems[ids[j]].product].unitPrice)
            ==> 0 <= SumItemTotals(t, ids)
  {
    if |ids| > 0 {
      SumItemTotalsNonNegative(t, ids[..|ids| - 1]);
    }
  }

  lemma CartItemIdsPriced(t: Tables, cart: CartId)
    requires WellFormed(t)
    ensures PricedItems(t, CartItemIds(t, cart))
  {
    CartItemIdsMembers(t, cart);
  }

  /** A cart's total: the sum of its items' totals. It is never negative while
      the cart's products have non-negative prices. */
  function CartTotal(t: Tables, cart: CartId): (total: Cents)
    requires WellFormed(t)
    ensures (forall i :: i in t.cartItems && t.cartItems[i].cart == cart ==>
               0 <= t.products[t.cartItems[i].product].unitPrice) ==> 0 <= total
  {
    CartItemIdsPriced(t, cart);
    CartItemIdsMembers(t, cart);
    SumItemTotalsNonNegative(t, CartItemIds(t, cart));
    SumItemTotals(t, CartItemIds(t, cart))
  }

  /** A cart without items totals 0. */
  lemma CartTotalOfEmptyCart(t: Tables, cart: CartId)
    requires WellFormed(t)
    requires forall i :: i in t.cartItems ==> t.cartItems[i].cart != cart
    ensures CartTotal(t, cart) == 0
  {
    WhereNone(t.cartItems, ItemOfCart(cart), t.next.cartItem);
  }

  /** The sum of quantity times stored unit price over the listed order items. */
  function SumOrderLines(t: Tables, ids: seq<Id>): (sum: Cents)
    requires forall j :: 0 <= j < |ids| ==> ids[j] in t.orderItems
  {
    if |ids| == 0 then 0
    else SumOrderLines(t, ids[..|ids| - 1]) + t.orderItems[ids[|ids| - 1]].quantity * t.orderItems[ids[|ids| - 1]].unitPrice
  }

  /** An order's total, from the prices its items stored. */
  function OrderTotal(t: Tables, order: Id): (total: Cents)
  {
    OrderItemIdsMembers(t, order);
    SumOrderLines(t, OrderItemIds(t, order))
  }

  // ---------------------------------------------------------------------------
  // CreateOrderSerializer.save

  /** `Customer.objects.get(user_id=...)`: exactly one match, or an error. */
  function ResolveCustomer(t: Tables, userId: Id): (r: Result<Id, Error>)
    ensures r.Success? ==> r.value in t.customers && t.customers[r.value].userId == userId
    ensures r.Failure? ==> r.error == DoesNotExist("Customer") || r.error == MultipleObjectsReturned("Customer")
  {
    CustomerIdsMembers(t, userId);
    var ids := CustomerIdsForUser(t, userId);
    if |ids| == 0 then Failure(DoesNotExist("Customer"))
    else if |ids| > 1 then Failure(MultipleObjectsReturned("Customer"))
    else Success(ids[0])
  }

  /** `get` succeeds exactly when one customer has the user id, and returns it;
      it raises DoesNotExist exactly when none has. */
  lemma ResolveCustomerCases(t: Tables, userId: Id)
    requires WellFormed(t)
    ensures ResolveCustomer(t, userId) == Failure(DoesNotExist("Customer")) <==>
      forall c :: c in t.customers ==> t.customers[c].userId != userId
    ensures ResolveCustomer(t, userId).Success? <==>
      exists c :: c in t.customers && t.customers[c].userId == userId &&
        forall d :: d in t.customers && t.customers[d].userId == userId ==> d == c
    ensures ResolveCustomer(t, userId).Success? ==>
      var c := ResolveCustomer(t, userId).value;
      c in t.customers && t.customers[c].userId == userId &&
      forall d :: d in t.customers && t.customers[d].userId == userId ==> d == c
  {
    CustomerIdsMembers(t, userId);
    var ids := CustomerIdsForUser(t, userId);
    if |ids| == 0 {
      assert forall c :: c in t.customers ==> t.customers[c].userId != userId;
    } else if |ids| == 1 {
      var c := ids[0];
      assert c in t.customers && t.customers[c].userId == userId;
      forall d | d in t.customers && t.customers[d].userId == userId
        ensures d == c
      {
        assert d in ids;
      }
    } else {
      WhereIncreasing(t.customers, CustomerOfUser(userId), t.next.customer);
      var a, b := ids[0], ids[1];
      assert a in t.customers && b in t.customers && a != b;
      assert t.customers[a].userId == userId && t.customers[b].userId == userId;
    }
  }

  /** The order item a cart item becomes: same product and quantity, and the
      product's unit price at this moment. */
  function Snapshot(t: Tables, itemId: Id, order: Id): (line: OrderItem)
    requires itemId in t.cartItems && t.cartItems[itemId].product in t.products
  {
    var item := t.cartItems[itemId];
    OrderItem(order, item.product, item.quantity, t.products[item.product].unitPrice)
  }

  /** The order items built from the listed cart items, keyed `base`, `base + 1`, ...
      in the order of the list (the comprehension handed to `bulk_create`). */
  function Snapshots(t: Tables, ids: seq<Id>, order: Id, base: int): (added: map<Id, OrderItem>)
    requires PricedItems(t, ids)
    decreases |ids|
  {
    if |ids| == 0 then map[]
    else Snapshots(t, ids[..|ids| - 1], order, base)[base + |ids| - 1 := Snapshot(t, ids[|ids| - 1], order)]
  }

  lemma {:induction false} SnapshotsAt(t: Tables, ids: seq<Id>, order: Id, base: int)
    requires PricedItems(t, ids)
    ensures forall j :: j in Snapshots(t, ids, order, base) <==> base <= j < base + |ids|
    ensures forall k :: 0 <= k < |ids| ==> Snapshots(t, ids, order, base)[base + k] == Snapshot(t, ids[k], order)
    decreases |ids|
  {
    if |ids| > 0 {
      SnapshotsAt(t, ids[..|ids| - 1], order, base);
    }
  }

  /** One more cart item adds one more snapshot, under the next key. */
  lemma SnapshotsStep(existing: map<Id, OrderItem>, t: Tables, ids: seq<Id>, order: Id, base: int, i: nat)
    requires PricedItems(t, ids) && i < |ids|
    ensures PricedItems(t, ids[..i]) && PricedItems(t, ids[..i + 1])
    ensures (existing + Snapshots(t, ids[..i], order, base))[base + i := Snapshot(t, ids[i], order)] ==
            existing + Snapshots(t, ids[..i + 1], order, base)
  {
    assert ids[..i + 1][..i] == ids[..i];
    var prefix := Snapshots(t, ids[..i], order, base);
    assert Snapshots(t, ids[..i + 1], order, base) == prefix[base + i := Snapshot(t, ids[i], order)];
  }

  /** The order insert and the bulk insert of its items, before the cart delete. */
  function InsertOrder(t: Tables, cartId: CartId, customer: Id, placedAt: Timestamp): (u: Tables)
    requires WellFormed(t)
  {
    var order := t.next.order;
    var ids := CartItemIds(t, cartId);
    CartItemIdsPriced(t, cartId);
    t.(orders := t.orders[order := NewOrder(customer, placedAt)],
       orderItems := t.orderItems + Snapshots(t, ids, order, t.next.orderItem),
       next := t.next.(order := order + 1, orderItem := t.next.orderItem + |ids|))
  }

  /** After the inserts, the new order's items are the run of fresh keys, the
      k-th being the snapshot of the cart's k-th item; older items are kept. */
  lemma InsertOrderItems(t: Tables, cartId: CartId, customer: Id, placedAt: Timestamp)
    requires WellFormed(t)
    ensures
      var u := InsertOrder(t, cartId, customer, placedAt);
      var lines := CartItemIds(t, cartId);
      var items := OrderItemIds(u, t.next.order);
      && PricedItems(t, lines)
      && |items| == |lines|
      && (forall k :: 0 <= k < |lines| ==>
            items[k] == t.next.orderItem + k && items[k] in u.orderItems && u.orderItems[items[k]] == Snapshot(t, lines[k], t.next.order))
      && (forall i :: i in t.orderItems ==> i in u.orderItems && u.orderItems[i] == t.orderItems[i])
      && (forall i :: i in u.orderItems && i !in t.orderItems ==> u.orderItems[i].order == t.next.order)
  {
    var lines := CartItemIds(t, cartId);
    CartItemIdsPriced(t, cartId);
    SnapshotsAt(t, lines, t.next.order, t.next.orderItem);
    InsertOrderKeepsOlder(t, cartId, customer, placedAt);
    InsertOrderRun(t, cartId, customer, placedAt);
  }

  /** The inserts keep every older order item, and every new one belongs to
      the new order. */
  lemma InsertOrderKeepsOlder(t: Tables, cartId: CartId, customer: Id, placedAt: Timestamp)
    requires WellFormed(t)
    ensures
      var u := InsertOrder(t, cartId, customer, placedAt);
      && (forall i :: i in t.orderItems ==> i in u.orderItems && u.orderItems[i] == t.orderItems[i])
      && (forall i :: i in u.orderItems && i !in t.orderItems ==> u.orderItems[i].order == t.next.order)
  {
    var u := InsertOrder(t, cartId, customer, placedAt);
    var lines := CartItemIds(t, cartId);
    var base := t.next.orderItem;
    CartItemIdsPriced(t, cartId);
    SnapshotsAt(t, lines, t.next.order, base);
    var added := Snapshots(t, lines, t.next.order, base);
    assert u.orderItems == t.orderItems + added;
    forall i | i in u.orderItems && i !in t.orderItems
      ensures u.orderItems[i].order == t.next.order
    {
      assert added[base + (i - base)] == Snapshot(t, lines[i - base], t.next.order);
    }
  }

  /** The new order's items are listed as the run of keys the bulk insert took. */
  lemma InsertOrderRun(t: Tables, cartId: CartId, customer: Id, placedAt: Timestamp)
    requires WellFormed(t)
    ensures
      var items := OrderItemIds(InsertOrder(t, cartId, customer, placedAt), t.next.order);
      && |items| == |CartItemIds(t, cartId)|
      && (forall k :: 0 <= k < |items| ==> items[k] == t.next.orderItem + k)
  {
    var u := InsertOrder(t, cartId, customer, placedAt);
    var order := t.next.order;
    var lines := CartItemIds(t, cartId);
    var base := t.next.orderItem;
    CartItemIdsPriced(t, cartId);
    SnapshotsAt(t, lines, order, base);
    var added := Snapshots(t, lines, order, base);
    assert u.orderItems == t.orderItems + added;
    assert u.next.orderItem == base + |lines|;
    forall x | 0 <= x < base && x in u.orderItems
      ensures !ItemOfOrder(order)(u.orderItems[x])
    {
      assert x in t.orderItems;
    }
    WhereNone(u.orderItems, ItemOfOrder(order), base);
    forall j | base <= j < base + |lines|
      ensures j in u.orderItems && ItemOfOrder(order)(u.orderItems[j])
    {
      var k := j - base;
      assert added[base + k] == Snapshot(t, lines[k], order);
    }
    WhereRun(u.orderItems, ItemOfOrder(order), base, base + |lines|);
  }

  /** `save` on a validated cart id: inside one atomic block, resolve the customer,
      create the order, copy every cart item into an order item priced from its
      product, then delete the cart. An error leaves nothing behind, so the
      result is either the new state with the order's key, or the error. */
  function CheckoutSave(t: Tables, cartId: CartId, userId: Id, placedAt: Timestamp): (r: Result<(Tables, Id), Error>)
    requires WellFormed(t)
    requires ValidateCartId(t, cartId).Success?
    ensures r.Success? <==> ResolveCustomer(t, userId).Success?
    ensures r.Success? ==>
      && r.value.1 !in t.orders && r.value.1 in r.value.0.orders
      && r.value.0.orders[r.value.1].customer == ResolveCustomer(t, userId).value
      && r.value.0.orders[r.value.1].paymentStatus == PAYMENT_STATUS_PENDING
      && cartId in t.carts && cartId !in r.value.0.carts
  {
    match ResolveCustomer(t, userId)
    case Failure(e) => Failure(e)
    case Success(customer) =>
      Success((DeleteCart(InsertOrder(t, cartId, customer, placedAt), cartId), t.next.order))
  }

  /** Validation, then `save`, on the same state. */
  function PlaceOrder(t: Tables, cartId: CartId, userId: Id, placedAt: Timestamp): (r: Result<(Tables, Id), Error>)
    requires WellFormed(t)
    ensures cartId !in t.carts ==> r == Failure(ValidationError("cart_id", NO_CART_MESSAGE))
    ensures r.Success? ==> cartId in t.carts && cartId !in r.value.0.carts && r.value.1 !in t.orders
    ensures r.Success? ==> exists i :: i in t.cartItems && t.cartItems[i].cart == cartId
  {
    ValidateCartIdCases(t, cartId);
    match ValidateCartId(t, cartId)
    case Failure(e) => Failure(e)
    case Success(_) => CheckoutSave(t, cartId, userId, placedAt)
  }

  /** Checkout fails exactly when `get` finds no customer or several for the
      user id, and then with the error `get` raised. */
  lemma CheckoutFailsOnlyOnCustomer(t: Tables, cartId: CartId, userId: Id, placedAt: Timestamp)
    requires WellFormed(t)
    requires ValidateCartId(t, cartId).Success?
    ensures CheckoutSave(t, cartId, userId, placedAt).Failure? <==> ResolveCustomer(t, userId).Failure?
    ensures CheckoutSave(t, cartId, userId, placedAt).Failure? ==>
      CheckoutSave(t, cartId, userId, placedAt).error == ResolveCustomer(t, userId).error
    ensures CheckoutSave(t, cartId, userId, placedAt).Failure? ==>
      CheckoutSave(t, cartId, userId, placedAt).error == DoesNotExist("Customer") ||
      CheckoutSave(t, cartId, userId, placedAt).error == MultipleObjectsReturned("Customer")
  {
  }

  /** A successful checkout adds exactly one order, under a fresh key, pending,
      placed at the given time, for the customer of the user. */
  lemma CheckoutCreatesOneOrder(t: Tables, cartId: CartId, userId: Id, placedAt: Timestamp)
    requires WellFormed(t)
    requires ValidateCartId(t, cartId).Success?
    requires CheckoutSave(t, cartId, userId, placedAt).Success?
    ensures
      var after := CheckoutSave(t, cartId, userId, placedAt).value.0;
      var order := CheckoutSave(t, cartId, userId, placedAt).value.1;
      && order !in t.orders
      && after.orders.Keys == t.orders.Keys + {order}
      && (forall o :: o in t.orders ==> after.orders[o] == t.orders[o])
      && after.orders[order].paymentStatus == PAYMENT_STATUS_PENDING
      && after.orders[order].placedAt == placedAt
      && after.orders[order].customer in t.customers
      && t.customers[after.orders[order].customer].userId == userId
  {
    ResolveCustomerCases(t, userId);
  }

  /** Each cart item becomes exactly one order item of the new order, in the
      same position: same product, same quantity, and the product's unit price
      at checkout. Order items that existed before are untouched and no other
      order item is added. */
  lemma CheckoutCopiesCartItems(t: Tables, cartId: CartId, userId: Id, placedAt: Timestamp)
    requires WellFormed(t)
    requires ValidateCartId(t, cartId).Success?
    requires CheckoutSave(t, cartId, userId, placedAt).Success?
    ensures
      var after := CheckoutSave(t, cartId, userId, placedAt).value.0;
      var order := CheckoutSave(t, cartId, userId, placedAt).value.1;
      var lines := CartItemIds(t, cartId);
      var items := OrderItemIds(after, order);
      && 0 < |lines| == |items|
      && (forall k :: 0 <= k < |lines| ==>
            && lines[k] in t.cartItems
            && t.cartItems[lines[k]].product in t.products
            && items[k] in after.orderItems
            && after.orderItems[items[k]] ==
                 OrderItem(order, t.cartItems[lines[k]].product, t.cartItems[lines[k]].quantity,
                           t.products[t.cartItems[lines[k]].product].unitPrice))
      && (forall i :: i in t.orderItems ==> i in after.orderItems && after.orderItems[i] == t.orderItems[i])
      && (forall i :: i in after.orderItems && i !in t.orderItems ==> after.orderItems[i].order == order)
  {
    var customer := ResolveCustomer(t, userId).value;
    var u := InsertOrder(t, cartId, customer, placedAt);
    var after := CheckoutSave(t, cartId, userId, placedAt).value.0;
    assert after == DeleteCart(u, cartId);
    assert after.orderItems == u.orderItems && after.next == u.next;
    InsertOrderItems(t, cartId, customer, placedAt);
  }

  /** The inserts keep every foreign key and column bound. */
  lemma InsertOrderWellFormed(t: Tables, cartId: CartId, customer: Id, placedAt: Timestamp)
    requires WellFormed(t)
    requires customer in t.customers
    ensures WellFormed(InsertOrder(t, cartId, customer, placedAt))
  {
    var u := InsertOrder(t, cartId, customer, placedAt);
    var lines := CartItemIds(t, cartId);
    CartItemIdsPriced(t, cartId);
    SnapshotsAt(t, lines, t.next.order, t.next.orderItem);
    forall i | i in u.orderItems
      ensures u.orderItems[i].order in u.orders && u.orderItems[i].product in u.products
      ensures QuantityInRange(u.orderItems[i].quantity) && PriceInRange(u.orderItems[i].unitPrice)
      ensures 0 <= i < u.next.orderItem
    {
      if i !in t.orderItems {
        var k := i - t.next.orderItem;
        assert u.orderItems[t.next.orderItem + k] == Snapshot(t, lines[k], t.next.order);
      }
    }
  }

  /** A successful checkout leaves the database well formed. */
  lemma CheckoutWellFormed(t: Tables, cartId: CartId, userId: Id, placedAt: Timestamp)
    requires WellFormed(t)
    requires ValidateCartId(t, cartId).Success?
    requires CheckoutSave(t, cartId, userId, placedAt).Success?
    ensures WellFormed(CheckoutSave(t, cartId, userId, placedAt).value.0)
  {
    ResolveCustomerCases(t, userId);
    var customer := ResolveCustomer(t, userId).value;
    InsertOrderWellFormed(t, cartId, customer, placedAt);
    DeleteCartWellFormed(InsertOrder(t, cartId, customer, placedAt), cartId);
  }

  /** After checkout the cart and its items are gone; every other cart keeps
      exactly the items it had, and the catalog and customers are unchanged. */
  lemma CheckoutRemovesCart(t: Tables, cartId: CartId, userId: Id, placedAt: Timestamp)
    requires WellFormed(t)
    requires ValidateCartId(t, cartId).Success?
    requires CheckoutSave(t, cartId, userId, placedAt).Success?
    ensures
      var after := CheckoutSave(t, cartId, userId, placedAt).value.0;
      && after.carts == t.carts - {cartId}
      && (forall i :: i in after.cartItems <==> i in t.cartItems && t.cartItems[i].cart != cartId)
      && (forall i :: i in after.cartItems ==> after.cartItems[i] == t.cartItems[i])
      && CartItemIds(after, cartId) == []
      && (forall c :: c != cartId ==> CartItemIds(after, c) == CartItemIds(t, c))
      && after.products == t.products && after.collections == t.collections
      && after.customers == t.customers && after.addresses == t.addresses
  {
    var after := CheckoutSave(t, cartId, userId, placedAt).value.0;
    assert after.next.cartItem == t.next.cartItem;
    WhereNone(after.cartItems, ItemOfCart(cartId), after.next.cartItem);
    forall c | c != cartId
      ensures CartItemIds(after, c) == CartItemIds(t, c)
    {
      WhereFrame(after.cartItems, ItemOfCart(c), t.cartItems, ItemOfCart(c), t.next.cartItem);
    }
  }

  /** Counting through the query: the new order has one order item per cart item. */
  lemma CheckoutItemCount(t: Tables, cartId: CartId, userId: Id, placedAt: Timestamp)
    requires WellFormed(t)
    requires ValidateCartId(t, cartId).Success?
    requires CheckoutSave(t, cartId, userId, placedAt).Success?
    ensures
      var after := CheckoutSave(t, cartId, userId, placedAt).value.0;
      |OrderItemIds(after, t.next.order)| == |CartItemIds(t, cartId)|
  {
    var customer := ResolveCustomer(t, userId).value;
    var u := InsertOrder(t, cartId, customer, placedAt);
    var after := CheckoutSave(t, cartId, userId, placedAt).value.0;
    assert after == DeleteCart(u, cartId);
    assert after.orderItems == u.orderItems && after.next == u.next;
    InsertOrderItems(t, cartId, customer, placedAt);
  }

  lemma OrderItemCount(t: Tables, order: Id)
    requires KeysBelow(t.orderItems, t.next.orderItem)
    ensures |OrderItemIds(t, order)| == |set i | i in t.orderItems && t.orderItems[i].order == order|
  {
    WhereCountOf(t.orderItems, ItemOfOrder(order), t.next.orderItem,
                 set i | i in t.orderItems && t.orderItems[i].order == order);
  }

  lemma CartItemCount(t: Tables, cart: CartId)
    requires KeysBelow(t.cartItems, t.next.cartItem)
    ensures |CartItemIds(t, cart)| == |set i | i in t.cartItems && t.cartItems[i].cart == cart|
  {
    WhereCountOf(t.cartItems, ItemOfCart(cart), t.next.cartItem,
                 set i | i in t.cartItems && t.cartItems[i].cart == cart);
  }

  /** The number of order items of the new order is the number of items the
      cart had. */
  lemma CheckoutOneOrderItemPerCartItem(t: Tables, cartId: CartId, userId: Id, placedAt: Timestamp)
    requires WellFormed(t)
    requires ValidateCartId(t, cartId).Success?
    requires CheckoutSave(t, cartId, userId, placedAt).Success?
    ensures
      var after := CheckoutSave(t, cartId, userId, placedAt).value.0;
      var order := CheckoutSave(t, cartId, userId, placedAt).value.1;
      |set i | i in after.orderItems && after.orderItems[i].order == order| ==
      |set i | i in t.cartItems && t.cartItems[i].cart == cartId|
  {
    var after := CheckoutSave(t, cartId, userId, placedAt).value.0;
    CheckoutItemCount(t, cartId, userId, placedAt);
    CheckoutWellFormed(t, cartId, userId, placedAt);
    OrderItemCount(after, t.next.order);
    CartItemCount(t, cartId);
  }

  /** Order lines that copy cart items one for one add up to the same amount. */
  lemma {:induction false} SumsAgree(t: Tables, lines: seq<Id>, u: Tables, items: seq<Id>, order: Id, k: nat)
    requires PricedItems(t, lines)
    requires |items| == |lines| && k <= |lines|
    requires forall j :: 0 <= j < |items| ==> items[j] in u.orderItems && u.orderItems[items[j]] == Snapshot(t, lines[j], order)
    ensures SumOrderLines(u, items[..k]) == SumItemTotals(t, lines[..k])
  {
    if k > 0 {
      SumsAgree(t, lines, u, items, order, k - 1);
      assert items[..k][..k - 1] == items[..k - 1];
      assert lines[..k][..k - 1] == lines[..k - 1];
    }
  }

  /** The new order is worth what the cart was worth at checkout. */
  lemma CheckoutOrderTotal(t: Tables, cartId: CartId, userId: Id, placedAt: Timestamp)
    requires WellFormed(t)
    requires ValidateCartId(t, cartId).Success?
    requires CheckoutSave(t, cartId, userId, placedAt).Success?
    ensures
      var after := CheckoutSave(t, cartId, userId, placedAt).value.0;
      var order := CheckoutSave(t, cartId, userId, placedAt).value.1;
      OrderTotal(after, order) == CartTotal(t, cartId)
  {
    var after := CheckoutSave(t, cartId, userId, placedAt).value.0;
    var order := CheckoutSave(t, cartId, userId, placedAt).value.1;
    CheckoutCopiesCartItems(t, cartId, userId, placedAt);
    CartItemIdsPriced(t, cartId);
    var lines := CartItemIds(t, cartId);
    var items := OrderItemIds(after, order);
    SumsAgree(t, lines, after, items, order, |lines|);
    assert items[..|items|] == items && lines[..|lines|] == lines;
  }

  /** Checking out the same cart twice fails the second time with the not-found
      message: the cart id is what stops a repeated checkout. */
  lemma NoDoubleCheckout(t: Tables, cartId: CartId, userId: Id, placedAt: Timestamp, userId': Id, placedAt': Timestamp)
    requires WellFormed(t)
    requires PlaceOrder(t, cartId, userId, placedAt).Success?
    ensures WellFormed(PlaceOrder(t, cartId, userId, placedAt).value.0)
    ensures PlaceOrder(PlaceOrder(t, cartId, userId, placedAt).value.0, cartId, userId', placedAt') ==
      Failure(ValidationError("cart_id", NO_CART_MESSAGE))
  {
    CheckoutWellFormed(t, cartId, userId, placedAt);
  }

  /** Two products at 10.00 and 5.00, a cart holding two of the first and one
      of the second, and the customer of user 7. */
  function ExampleShop(): (t: Tables)
  {
    Tables(
      map[0 := Collection("c", None)],
      map[0 := Product("A", "a", "", 1000, 5, 0, 0), 1 := Product("B", "b", "", 500, 5, 0, 0)],
      map[0 := Customer(7, "", "", "", "", None, "B")],
      map[],
      map[3 := Cart(0)],
      map[0 := CartItem(3, 0, 2), 1 := CartItem(3, 1, 1)],
      map[], map[],
      Sequences(1, 2, 1, 0, 2, 0, 0))
  }

  lemma ExampleShopQueries()
    ensures WellFormed(ExampleShop())
    ensures CartItemIds(ExampleShop(), 3) == [0, 1]
    ensures ResolveCustomer(ExampleShop(), 7) == Success(0)
  {
    ExampleShopWellFormed();
    ExampleShopCart();
    ExampleShopCustomer();
  }

  lemma ExampleShopWellFormed()
    ensures WellFormed(ExampleShop())
  {
    ExampleShopKeys();
    ExampleShopForeignKeys();
    ExampleShopColumns();
  }

  lemma ExampleShopKeys()
    ensures KeysInSequence(ExampleShop())
  {
  }

  lemma ExampleShopForeignKeys()
    ensures ForeignKeysExist(ExampleShop())
  {
  }

  lemma ExampleShopColumns()
    ensures ColumnsInRange(ExampleShop())
  {
  }

  lemma ExampleShopCart()
    ensures CartItemIds(ExampleShop(), 3) == [0, 1]
  {
    var t := ExampleShop();
    assert Where(t.cartItems, ItemOfCart(3), 0) == [];
    assert Where(t.cartItems, ItemOfCart(3), 1) == [0];
  }

  lemma ExampleShopCustomer()
    ensures ResolveCustomer(ExampleShop(), 7) == Success(0)
  {
    var t := ExampleShop();
    assert Where(t.customers, CustomerOfUser(7), 0) == [];
  }

  lemma ExampleShopInsert()
    ensures WellFormed(ExampleShop())
    ensures var u := InsertOrder(ExampleShop(), 3, 0, 100);
      && u.orders == map[0 := Order(100, PAYMENT_STATUS_PENDING, 0)]
      && u.orderItems == map[0 := OrderItem(0, 0, 2, 1000), 1 := OrderItem(0, 1, 1, 500)]
      && u.carts == ExampleShop().carts
      && u.cartItems == ExampleShop().cartItems
  {
    ExampleShopQueries();
    ExampleShopSnapshots();
  }

  lemma ExampleShopSnapshots()
    ensures PricedItems(ExampleShop(), [0, 1])
    ensures Snapshots(ExampleShop(), [0, 1], 0, 0) == map[0 := OrderItem(0, 0, 2, 1000), 1 := OrderItem(0, 1, 1, 500)]
  {
    var t := ExampleShop();
    var lines := [0, 1];
    assert lines[..1] == [0] && lines[..1][..0] == [];
    assert Snapshots(t, [0], 0, 0) == map[0 := OrderItem(0, 0, 2, 1000)];
  }

  /** Placing the order for the example cart yields one pending order with the
      two lines at the prices of the moment, and the cart is gone. */
  lemma CheckoutExample()
    ensures WellFormed(ExampleShop())
    ensures PlaceOrder(ExampleShop(), 3, 7, 100).Success?
    ensures var (after, order) := PlaceOrder(ExampleShop(), 3, 7, 100).value;
      && order == 0
      && after.orders == map[0 := Order(100, PAYMENT_STATUS_PENDING, 0)]
      && after.orderItems == map[0 := OrderItem(0, 0, 2, 1000), 1 := OrderItem(0, 1, 1, 500)]
      && after.carts == map[]
      && after.cartItems == map[]
  {
    ExampleShopQueries();
    ExampleShopInsert();
    var u := InsertOrder(ExampleShop(), 3, 0, 100);
    var after := DeleteCart(u, 3);
    assert after.cartItems == map[];
    assert PlaceOrder(ExampleShop(), 3, 7, 100) == Success((after, 0));
  }

  /** `OrderItem.objects.bulk_create` of the snapshots of the listed cart
      items, under consecutive fresh keys. */
  method BulkCreateOrderItems(db: Db, t: Tables, lines: seq<Id>, order: Id)
    requires PricedItems(t, lines)
    requires db.cartItems == t.cartItems && db.products == t.products
    modifies db
    ensures db.orderItems == old(db.orderItems) + Snapshots(t, lines, order, old(db.next.orderItem))
    ensures db.next == old(db.next).(orderItem := old(db.next.orderItem) + |lines|)
    ensures db.collections == old(db.collections) && db.products == old(db.products)
    ensures db.customers == old(db.customers) && db.addresses == old(db.addresses)
    ensures db.carts == old(db.carts) && db.cartItems == old(db.cartItems) && db.orders == old(db.orders)
  {
    var base := db.next.orderItem;
    var i := 0;
    while i < |lines|
      invariant 0 <= i <= |lines|
      invariant db.orderItems == old(db.orderItems) + Snapshots(t, lines[..i], order, base)
      invariant db.next == old(db.next).(orderItem := base + i)
      invariant db.collections == old(db.collections) && db.products == old(db.products)
      invariant db.customers == old(db.customers) && db.addresses == old(db.addresses)
      invariant db.carts == old(db.carts) && db.cartItems == old(db.cartItems) && db.orders == old(db.orders)
    {
      var item := db.cartItems[lines[i]];
      db.orderItems := db.orderItems[base + i := OrderItem(order, item.product, item.quantity, db.products[item.product].unitPrice)];
      db.next := db.next.(orderItem := base + i + 1);
      SnapshotsStep(old(db.orderItems), t, lines, order, base, i);
      i := i + 1;
    }
    assert lines[..i] == lines;
  }

  /** `CreateOrderSerializer.save` on the database, after validation. */
  method CreateOrder(db: Db, cartId: CartId, userId: Id, placedAt: Timestamp) returns (r: Result<Id, Error>)
    requires db.Valid()
    requires ValidateCartId(db.State(), cartId).Success?
    modifies db
    ensures db.Valid()
    ensures match CheckoutSave(old(db.State()), cartId, userId, placedAt)
      case Success(placed) => r == Success(placed.1) && db.State() == placed.0
      case Failure(e) => r == Failure(e) && db.State() == old(db.State())
  {
    var before := db.State();
    var customer := ResolveCustomer(before, userId);
    if customer.Failure? {
      return Failure(customer.error);
    }
    ResolveCustomerCases(before, userId);
    var order := db.next.order;
    db.orders := db.orders[order := NewOrder(customer.value, placedAt)];
    db.next := db.next.(order := order + 1);
    var lines := CartItemIds(before, cartId);
    CartItemIdsPriced(before, cartId);
    BulkCreateOrderItems(db, before, lines, order);
    ghost var inserted := InsertOrder(before, cartId, customer.value, placedAt);
    assert db.State() == inserted;
    var removed := DeleteCart(db.State(), cartId);
    db.carts := removed.carts;
    db.cartItems := removed.cartItems;
    assert db.State() == removed;
    r := Success(order);
    CheckoutWellFormed(before, cartId, userId, placedAt);
  }
}
