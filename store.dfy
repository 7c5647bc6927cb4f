/** The persistence store: one object holding every table the handlers
    read and write, in the place of the database client. */
module Db {
  import opened Entities

  /** The values the database schema fills in for columns a handler does not
      set.  The schema is not part of this model, so they are a parameter of
      the store. */
  datatype Defaults = Defaults(
    orderStatus: OrderStatus,
    userStatus: UserStatus,
    outOfStock: bool)

  class Store {
    var products: seq<Product>
    var farmers: seq<Farmer>
    var buyers: seq<Buyer>
    var admins: seq<Admin>
    var carts: seq<Cart>
    var cartItems: seq<CartItem>
    var orders: seq<Order>
    var chats: seq<Chat>
    var notifications: seq<Notification>
    /** The next identifier the store will hand out. */
    var nextId: nat
    const defaults: Defaults

    /** Every identifier in use was handed out before `nextId`, and product
        identifiers are distinct. */
    ghost predicate Valid()
      reads this
    {
      && (forall k :: 0 <= k < |products| ==> products[k].id < nextId)
      && (forall i, j :: 0 <= i < j < |products| ==> products[i].id != products[j].id)
      && (forall k :: 0 <= k < |farmers| ==> farmers[k].id < nextId)
      && (forall k :: 0 <= k < |buyers| ==> buyers[k].id < nextId)
      && (forall k :: 0 <= k < |admins| ==> admins[k].id < nextId)
      && (forall k :: 0 <= k < |carts| ==> carts[k].id < nextId)
      && (forall k :: 0 <= k < |cartItems| ==> cartItems[k].id < nextId)
      && (forall k :: 0 <= k < |orders| ==> orders[k].id < nextId)
      && (forall k :: 0 <= k < |chats| ==> chats[k].id < nextId)
      && (forall k :: 0 <= k < |notifications| ==> notifications[k].id < nextId)
    }

    constructor (defaults: Defaults)
      ensures Valid()
      ensures this.defaults == defaults && nextId == 0
      ensures products == [] && farmers == [] && buyers == [] && admins == []
      ensures carts == [] && cartItems == [] && orders == [] && chats == [] && notifications == []
    {
      this.defaults := defaults;
      products, farmers, buyers, admins := [], [], [], [];
      carts, cartItems, orders, chats, notifications := [], [], [], [], [];
      nextId := 0;
    }
  }
}
