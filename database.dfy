/** The database the serializers and the admin change in place: one field per
    table, reassigned by each write, and the id sequences. */
module Database {
  import opened Models

  class Db {
    var collections: map<Id, Collection>
    var products: map<Id, Product>
    var customers: map<Id, Customer>
    var addresses: map<Id, Address>
    var carts: map<CartId, Cart>
    var cartItems: map<Id, CartItem>
    var orders: map<Id, Order>
    var orderItems: map<Id, OrderItem>
    var next: Sequences

    /** An empty database, every id sequence at its start. */
    constructor()
      ensures Valid()
      ensures State() == Tables(map[], map[], map[], map[], map[], map[], map[], map[], Sequences(0, 0, 0, 0, 0, 0, 0))
    {
      collections := map[];
      products := map[];
      customers := map[];
      addresses := map[];
      carts := map[];
      cartItems := map[];
      orders := map[];
      orderItems := map[];
      next := Sequences(0, 0, 0, 0, 0, 0, 0);
    }

    /** The current contents of every table. */
    function State(): (t: Tables)
      reads this
    {
      Tables(collections, products, customers, addresses, carts, cartItems, orders, orderItems, next)
    }

    /** The integrity every committed state keeps. */
    ghost predicate Valid()
      reads this
    {
      WellFormed(State())
    }
  }
}
