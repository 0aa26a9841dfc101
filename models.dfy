/** The store's records (store/models.py): one datatype per model, the choice
    lists with their defaults, the column bounds, the whole database as one value
    `Tables`, its referential integrity `WellFormed`, and what deleting a row does
    under each foreign key's on_delete rule (CASCADE, PROTECT, SET_NULL). */
module Models {
  import opened Wrappers
  import opened Query

  /** An auto-increment primary key. */
  type Id = int
  /** A cart's key: an opaque token, never allocated by the code modelled here. */
  type CartId = int
  /** A wall-clock reading, taken as a parameter and never inspected. */
  type Timestamp = int
  /** A DecimalField(decimal_places=2) amount, as a whole number of cents. */
  type Cents = int

  /** DecimalField(max_digits=6, decimal_places=2): at most 9999.99 in magnitude. */
  const MAX_PRICE_CENTS := 999_999
  /** PositiveSmallIntegerField holds 0..32767. */
  const MAX_POSITIVE_SMALL := 32767
  /** IntegerField holds a signed 32-bit value. */
  const MIN_INTEGER := -2_147_483_648
  const MAX_INTEGER := 2_147_483_647

  predicate PriceInRange(p: Cents) { -MAX_PRICE_CENTS <= p <= MAX_PRICE_CENTS }
  predicate QuantityInRange(q: int) { 0 <= q <= MAX_POSITIVE_SMALL }
  predicate IntegerInRange(n: int) { MIN_INTEGER <= n <= MAX_INTEGER }

  datatype Collection = Collection(title: string, featuredProduct: Option<Id>)

  datatype Product = Product(
    title: string, slug: string, description: string,
    unitPrice: Cents, inventory: int, lastUpdate: Timestamp, collection: Id)

  /** `userId` is the one-to-one link to the account that the serializers and the
      admin look customers up by. */
  datatype Customer = Customer(
    userId: Id, firstName: string, lastName: string, email: string, phone: string,
    birthDate: Option<int>, membership: string)

  datatype Order = Order(placedAt: Timestamp, paymentStatus: string, customer: Id)

  datatype OrderItem = OrderItem(order: Id, product: Id, quantity: int, unitPrice: Cents)

  datatype Cart = Cart(createdAt: Timestamp)

  datatype CartItem = CartItem(cart: CartId, product: Id, quantity: int)

  datatype Address = Address(street: string, city: string, customer: Id)

  /** A choices list: stored key and human-readable label. */
  type Choices = seq<(string, string)>

  predicate IsChoice(choices: Choices, v: string)
  {
    exists i :: 0 <= i < |choices| && choices[i].0 == v
  }

  const MEMBERSHIP_BRONZE := "Bronze"
  const MEMBERSHIP_SILVER := "Silver"
  const MEMBERSHIP_GOLD := "Gold"
  const MEMBERSHIP_CHOICES: Choices := [("B", MEMBERSHIP_BRONZE), ("S", MEMBERSHIP_SILVER), ("G", MEMBERSHIP_GOLD)]
  /** The declared default is the label constant, not one of the stored keys. */
  const MEMBERSHIP_DEFAULT := MEMBERSHIP_BRONZE
  const MEMBERSHIP_MAX_LENGTH := 1

  const PAYMENT_STATUS_PENDING := "P"
  const PAYMENT_STATUS_COMPLETE := "C"
  const PAYMENT_STATUS_FAILED := "F"
  const PAYMENT_STATUS_CHOICES: Choices :=
    [(PAYMENT_STATUS_PENDING, "Pending"), (PAYMENT_STATUS_COMPLETE, "Complete"), (PAYMENT_STATUS_FAILED, "Failed")]
  const PAYMENT_STATUS_DEFAULT := PAYMENT_STATUS_PENDING

  /** The stored payment statuses are exactly P, C and F, and the default is one of them. */
  lemma PaymentStatusChoices(v: string)
    ensures IsChoice(PAYMENT_STATUS_CHOICES, v) <==> v == "P" || v == "C" || v == "F"
    ensures IsChoice(PAYMENT_STATUS_CHOICES, PAYMENT_STATUS_DEFAULT)
  {
    if IsChoice(PAYMENT_STATUS_CHOICES, v) {
      var i :| 0 <= i < |PAYMENT_STATUS_CHOICES| && PAYMENT_STATUS_CHOICES[i].0 == v;
      assert i == 0 || i == 1 || i == 2;
    }
    assert PAYMENT_STATUS_CHOICES[0].0 == "P";
    assert PAYMENT_STATUS_CHOICES[1].0 == "C";
    assert PAYMENT_STATUS_CHOICES[2].0 == "F";
  }

  /** The stored memberships are exactly B, S and G; the declared default
      "Bronze" is none of them and is longer than the column's max_length. */
  lemma MembershipChoices(v: string)
    ensures IsChoice(MEMBERSHIP_CHOICES, v) <==> v == "B" || v == "S" || v == "G"
    ensures !IsChoice(MEMBERSHIP_CHOICES, MEMBERSHIP_DEFAULT)
    ensures |MEMBERSHIP_DEFAULT| > MEMBERSHIP_MAX_LENGTH
  {
    if IsChoice(MEMBERSHIP_CHOICES, v) {
      var i :| 0 <= i < |MEMBERSHIP_CHOICES| && MEMBERSHIP_CHOICES[i].0 == v;
      assert i == 0 || i == 1 || i == 2;
    }
    assert MEMBERSHIP_CHOICES[0].0 == "B";
    assert MEMBERSHIP_CHOICES[1].0 == "S";
    assert MEMBERSHIP_CHOICES[2].0 == "G";
    assert MEMBERSHIP_DEFAULT[0] == 'B' && |MEMBERSHIP_DEFAULT| == 6;
  }

  /** A new order row: only the customer is given, the rest are column defaults. */
  function NewOrder(customer: Id, placedAt: Timestamp): (o: Order)
    ensures o.customer == customer && o.placedAt == placedAt
    ensures o.paymentStatus == PAYMENT_STATUS_DEFAULT && IsChoice(PAYMENT_STATUS_CHOICES, o.paymentStatus)
  {
    PaymentStatusChoices(PAYMENT_STATUS_DEFAULT);
    Order(placedAt, PAYMENT_STATUS_DEFAULT, customer)
  }

  /** A new customer row with the membership left to its declared default. The
      default is too long for the column, so the row can never be stored. */
  function NewCustomer(userId: Id, firstName: string, lastName: string, email: string, phone: string, birthDate: Option<int>): (c: Customer)
    ensures c.userId == userId && c.membership == "Bronze"
    ensures !IsChoice(MEMBERSHIP_CHOICES, c.membership)
    ensures |c.membership| > MEMBERSHIP_MAX_LENGTH
  {
    MembershipChoices(MEMBERSHIP_DEFAULT);
    Customer(userId, firstName, lastName, email, phone, birthDate, MEMBERSHIP_DEFAULT)
  }

  /** The next value of each auto-increment id sequence. */
  datatype Sequences = Sequences(
    collection: nat, product: nat, customer: nat, address: nat,
    cartItem: nat, order: nat, orderItem: nat)

  /** The whole database: one map per table, from primary key to row. */
  datatype Tables = Tables(
    collections: map<Id, Collection>,
    products: map<Id, Product>,
    customers: map<Id, Customer>,
    addresses: map<Id, Address>,
    carts: map<CartId, Cart>,
    cartItems: map<Id, CartItem>,
    orders: map<Id, Order>,
    orderItems: map<Id, OrderItem>,
    next: Sequences)

  ghost predicate KeysInSequence(t: Tables)
  {
    && KeysBelow(t.collections, t.next.collection)
    && KeysBelow(t.products, t.next.product)
    && KeysBelow(t.customers, t.next.customer)
    && KeysBelow(t.addresses, t.next.address)
    && KeysBelow(t.cartItems, t.next.cartItem)
    && KeysBelow(t.orders, t.next.order)
    && KeysBelow(t.orderItems, t.next.orderItem)
  }

  /** Every foreign key names an existing row (a featured product may be null). */
  ghost predicate ForeignKeysExist(t: Tables)
  {
    && (forall c :: c in t.collections && t.collections[c].featuredProduct.Some? ==>
          t.collections[c].featuredProduct.value in t.products)
    && (forall p :: p in t.products ==> t.products[p].collection in t.collections)
    && (forall a :: a in t.addresses ==> t.addresses[a].customer in t.customers)
    && (forall o :: o in t.orders ==> t.orders[o].customer in t.customers)
    && (forall i :: i in t.orderItems ==> t.orderItems[i].order in t.orders && t.orderItems[i].product in t.products)
    && (forall i :: i in t.cartItems ==> t.cartItems[i].cart in t.carts && t.cartItems[i].product in t.products)
  }

  /** Every stored number fits its column, and every stored membership fits its
      varchar(1) column. */
  ghost predicate ColumnsInRange(t: Tables)
  {
    && (forall p :: p in t.products ==> PriceInRange(t.products[p].unitPrice) && IntegerInRange(t.products[p].inventory))
    && (forall i :: i in t.orderItems ==> QuantityInRange(t.orderItems[i].quantity) && PriceInRange(t.orderItems[i].unitPrice))
    && (forall i :: i in t.cartItems ==> QuantityInRange(t.cartItems[i].quantity))
    && (forall c :: c in t.customers ==> |t.customers[c].membership| <= MEMBERSHIP_MAX_LENGTH)
  }

  ghost predicate WellFormed(t: Tables)
  {
    KeysInSequence(t) && ForeignKeysExist(t) && ColumnsInRange(t)
  }

  /** The exceptions the ORM and the serializer layer raise in the modelled code. */
  datatype Error =
    | ValidationError(field: string, message: string)
    | DoesNotExist(model: string)
    | MultipleObjectsReturned(model: string)
    | IntegrityError(column: string)
    | DataError(column: string)
    | ProtectedError(model: string)

  /** Deleting a cart: CartItem.cart is CASCADE, so its items go too. Nothing
      else refers to a cart, so the delete is never refused. */
  function DeleteCart(t: Tables, id: CartId): (r: Tables)
    ensures r.carts == t.carts - {id}
    ensures forall i :: i in r.cartItems <==> i in t.cartItems && t.cartItems[i].cart != id
    ensures forall i :: i in r.cartItems ==> r.cartItems[i] == t.cartItems[i]
    ensures r == t.(carts := r.carts, cartItems := r.cartItems)
  {
    t.(carts := t.carts - {id},
       cartItems := map i | i in t.cartItems && t.cartItems[i].cart != id :: t.cartItems[i])
  }

  /** Deleting a customer: refused while an order refers to it (Order.customer is
      PROTECT); otherwise its addresses go too (Address.customer is CASCADE). */
  function DeleteCustomer(t: Tables, id: Id): (r: Result<Tables, Error>)
    ensures r.Failure? <==> exists o :: o in t.orders && t.orders[o].customer == id
    ensures r.Failure? ==> r.error == ProtectedError("Order")
    ensures r.Success? ==>
      && r.value.customers == t.customers - {id}
      && (forall a :: a in r.value.addresses <==> a in t.addresses && t.addresses[a].customer != id)
      && (forall a :: a in r.value.addresses ==> r.value.addresses[a] == t.addresses[a])
      && r.value == t.(customers := r.value.customers, addresses := r.value.addresses)
  {
    if exists o :: o in t.orders && t.orders[o].customer == id then
      Failure(ProtectedError("Order"))
    else
      Success(t.(customers := t.customers - {id},
                 addresses := map a | a in t.addresses && t.addresses[a].customer != id :: t.addresses[a]))
  }

  /** The collection row with its featured product cleared when it is `id`
      (Collection.featured_product is SET_NULL). */
  function Unfeature(c: Collection, id: Id): (unfeatured: Collection)
  {
    if c.featuredProduct == Some(id) then c.(featuredProduct := None) else c
  }

  /** Deleting a product: refused while an order item refers to it
      (OrderItem.product is PROTECT); otherwise the cart items holding it go too
      (CartItem.product is CASCADE) and every collection featuring it has its
      featured product set to null. */
  function DeleteProduct(t: Tables, id: Id): (r: Result<Tables, Error>)
    ensures r.Failure? <==> exists i :: i in t.orderItems && t.orderItems[i].product == id
    ensures r.Failure? ==> r.error == ProtectedError("OrderItem")
    ensures r.Success? ==>
      && r.value.products == t.products - {id}
      && (forall i :: i in r.value.cartItems <==> i in t.cartItems && t.cartItems[i].product != id)
      && (forall i :: i in r.value.cartItems ==> r.value.cartItems[i] == t.cartItems[i])
      && r.value.collections.Keys == t.collections.Keys
      && (forall c :: c in r.value.collections ==>
            && r.value.collections[c].title == t.collections[c].title
            && r.value.collections[c].featuredProduct ==
                 if t.collections[c].featuredProduct == Some(id) then None else t.collections[c].featuredProduct)
      && r.value == t.(products := r.value.products, cartItems := r.value.cartItems, collections := r.value.collections)
  {
    if exists i :: i in t.orderItems && t.orderItems[i].product == id then
      Failure(ProtectedError("OrderItem"))
    else
      Success(t.(products := t.products - {id},
                 cartItems := map i | i in t.cartItems && t.cartItems[i].product != id :: t.cartItems[i],
                 collections := map c | c in t.collections :: Unfeature(t.collections[c], id)))
  }

  /** Deleting a collection: refused while a product belongs to it
      (Product.collection is PROTECT). */
  function DeleteCollection(t: Tables, id: Id): (r: Result<Tables, Error>)
    ensures r.Failure? <==> exists p :: p in t.products && t.products[p].collection == id
    ensures r.Failure? ==> r.error == ProtectedError("Product")
    ensures r.Success? ==> r.value == t.(collections := t.collections - {id})
  {
    if exists p :: p in t.products && t.products[p].collection == id then
      Failure(ProtectedError("Product"))
    else
      Success(t.(collections := t.collections - {id}))
  }

  /** Deleting an order: refused while an order item refers to it
      (OrderItem.order is PROTECT). */
  function DeleteOrder(t: Tables, id: Id): (r: Result<Tables, Error>)
    ensures r.Failure? <==> exists i :: i in t.orderItems && t.orderItems[i].order == id
    ensures r.Failure? ==> r.error == ProtectedError("OrderItem")
    ensures r.Success? ==> r.value == t.(orders := t.orders - {id})
  {
    if exists i :: i in t.orderItems && t.orderItems[i].order == id then
      Failure(ProtectedError("OrderItem"))
    else
      Success(t.(orders := t.orders - {id}))
  }

  /** Every delete the rules allow leaves no dangling foreign key behind. */
  lemma DeleteCartWellFormed(t: Tables, id: CartId)
    requires WellFormed(t)
    ensures WellFormed(DeleteCart(t, id))
  {
  }

  lemma DeleteCustomerWellFormed(t: Tables, id: Id)
    requires WellFormed(t)
    requires DeleteCustomer(t, id).Success?
    ensures WellFormed(DeleteCustomer(t, id).value)
  {
  }

  lemma DeleteProductWellFormed(t: Tables, id: Id)
    requires WellFormed(t)
    requires DeleteProduct(t, id).Success?
    ensures WellFormed(DeleteProduct(t, id).value)
  {
  }

  lemma DeleteCollectionWellFormed(t: Tables, id: Id)
    requires WellFormed(t)
    requires DeleteCollection(t, id).Success?
    ensures WellFormed(DeleteCollection(t, id).value)
  {
  }

  lemma DeleteOrderWellFormed(t: Tables, id: Id)
    requires WellFormed(t)
    requires DeleteOrder(t, id).Success?
    ensures WellFormed(DeleteOrder(t, id).value)
  {
  }
}
