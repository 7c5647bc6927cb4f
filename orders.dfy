/** `/api/orders`: checkout of a buyer's cart (`POST`) and the order
    listings (`GET`). */
module Orders {
  import opened Common
  import opened Seqs
  import opened Entities
  import opened Db
  import OrderV2

  datatype CheckoutError =
    | BuyerIdRequired
    | CartIsEmpty
    /** An item whose product row is missing: the `reduce` dereferences it
        and the handler's catch answers 500. */
    | CreateFailed

  // ---------------------------------------------------------------- checkout

  /** Every cart item still names an existing product. */
  predicate AllPriced(ps: seq<Product>, items: seq<CartItem>)
  {
    forall k :: 0 <= k < |items| ==> FindProduct(ps, items[k].productId).Some?
  }

  /** The `reduce` over the cart: starting from `acc`, add each item's
      current product price times its quantity, front to back. */
  function Reduce(ps: seq<Product>, items: seq<CartItem>, acc: int): int
    requires AllPriced(ps, items)
  {
    if |items| == 0 then acc
    else Reduce(ps, items[1..], acc + FindProduct(ps, items[0].productId).value.price * items[0].quantity)
  }

  /** The order item a cart item becomes. */
  function LineOf(item: CartItem): OrderItem
  {
    OrderItem(item.productId, item.quantity)
  }

  /** `cart.products.map(item => ({ productId, quantity }))` */
  function LinesOf(items: seq<CartItem>): (r: seq<OrderItem>)
    ensures |r| == |items|
    ensures forall k :: 0 <= k < |items| ==> r[k] == LineOf(items[k])
  {
    if |items| == 0 then [] else [LineOf(items[0])] + LinesOf(items[1..])
  }

  /** The folded total is the price sum of the order lines it creates, the
      same sum the explicit-lines handler computes. */
  lemma {:induction false} ReduceIsTotal(ps: seq<Product>, items: seq<CartItem>, acc: int)
    requires AllPriced(ps, items)
    ensures Reduce(ps, items, acc) == acc + OrderV2.Total(ps, LinesOf(items))
  {
    if |items| > 0 {
      var first := LineOf(items[0]);
      var rest := LinesOf(items[1..]);
      var value := FindProduct(ps, items[0].productId).value.price * items[0].quantity;
      assert AllPriced(ps, items[1..]) by {
        forall k | 0 <= k < |items[1..]| ensures FindProduct(ps, items[1..][k].productId).Some? {
          assert items[1..][k] == items[k + 1];
        }
      }
      assert Reduce(ps, items, acc) == Reduce(ps, items[1..], acc + value);
      ReduceIsTotal(ps, items[1..], acc + value);
      assert LinesOf(items) == [first] + rest;
      OrderV2.TotalAppend(ps, [first], rest);
      assert OrderV2.Total(ps, [first]) == value by {
        assert [first][..0] == [];
        assert OrderV2.ItemValue(ps, first) == value;
      }
    }
  }

  /** What a checkout request will do, decided from the tables before any
      write: the cart to empty and its items, or the error answered. */
  datatype Plan = Plan(cartId: Id, items: seq<CartItem>)

  function PlanCheckout(carts: seq<Cart>, cartItems: seq<CartItem>, ps: seq<Product>, buyerId: Option<Id>)
    : (r: Response<Plan, CheckoutError>)
    ensures r.NoResponse? == false
    ensures buyerId.None? ==> r == Err(400, BuyerIdRequired)
    ensures buyerId.Some? && FindCartOf(carts, buyerId.value).None? ==> r == Err(400, CartIsEmpty)
    ensures r.Ok? ==>
      && r.status == 201 && buyerId.Some?
      && FindCartOf(carts, buyerId.value) == Some(Cart(r.value.cartId, buyerId.value))
      && r.value.items == ItemsOfCart(cartItems, r.value.cartId)
      && |r.value.items| > 0 && AllPriced(ps, r.value.items)
    ensures r.Err? && buyerId.Some? && FindCartOf(carts, buyerId.value).Some? ==>
      var items := ItemsOfCart(cartItems, FindCartOf(carts, buyerId.value).value.id);
      r == if |items| == 0 then Err(400, CartIsEmpty) else Err(500, CreateFailed)
    ensures r.Ok? <==>
      && buyerId.Some? && FindCartOf(carts, buyerId.value).Some?
      && var items := ItemsOfCart(cartItems, FindCartOf(carts, buyerId.value).value.id);
         |items| > 0 && AllPriced(ps, items)
  {
    if buyerId.None? then Err(400, BuyerIdRequired)
    else match FindCartOf(carts, buyerId.value)
      case None => Err(400, CartIsEmpty)
      case Some(cart) =>
        var items := ItemsOfCart(cartItems, cart.id);
        if |items| == 0 then Err(400, CartIsEmpty)
        else if !AllPriced(ps, items) then Err(500, CreateFailed)
        else Ok(201, Plan(cart.id, items))
  }

  /** The handler.  It neither checks nor changes stock; on success it adds
      exactly one order mirroring the cart items, empties that cart (the
      cart row stays) and leaves every other cart's items as they were. */
  method Checkout(db: Store, buyerId: Option<Id>, now: int) returns (r: Response<Order, CheckoutError>)
    requires db.Valid()
    modifies db
    ensures db.Valid()
    ensures unchanged(db`products, db`farmers, db`buyers, db`admins, db`carts, db`chats, db`notifications)
    ensures var plan := PlanCheckout(old(db.carts), old(db.cartItems), old(db.products), buyerId);
      && (plan.Err? ==> r == Err(plan.status, plan.error) && unchanged(db))
      && (plan.Ok? ==>
            && r == Ok(201, Order(old(db.nextId), buyerId.value, OrderV2.Total(db.products, LinesOf(plan.value.items)),
                                 db.defaults.orderStatus, LinesOf(plan.value.items), now))
            && db.orders == old(db.orders) + [r.value]
            && db.nextId == old(db.nextId) + 1
            && db.cartItems == DropCart(old(db.cartItems), plan.value.cartId))
  {
    var plan := ValidateCheckout(db, buyerId);
    if plan.Err? {
      return Err(plan.status, plan.error);
    }
    r := PlaceCartOrder(db, buyerId.value, plan.value, now);
  }

  /** The success path: total the items at their current prices, add the
      order, and empty the cart. */
  method PlaceCartOrder(db: Store, buyerId: Id, plan: Plan, now: int) returns (r: Response<Order, CheckoutError>)
    requires db.Valid() && AllPriced(db.products, plan.items)
    modifies db
    ensures db.Valid()
    ensures unchanged(db`products, db`farmers, db`buyers, db`admins, db`carts, db`chats, db`notifications)
    ensures r == Ok(201, Order(old(db.nextId), buyerId, OrderV2.Total(db.products, LinesOf(plan.items)),
                               db.defaults.orderStatus, LinesOf(plan.items), now))
    ensures db.orders == old(db.orders) + [r.value]
    ensures db.nextId == old(db.nextId) + 1
    ensures db.cartItems == DropCart(old(db.cartItems), plan.cartId)
  {
    var totalPrice := Reduce(db.products, plan.items, 0);
    ReduceIsTotal(db.products, plan.items, 0);
    assert totalPrice == OrderV2.Total(db.products, LinesOf(plan.items));
    var order := Order(db.nextId, buyerId, totalPrice, db.defaults.orderStatus, LinesOf(plan.items), now);
    CommitCheckout(db, order, plan.cartId);
    r := Ok(201, order);
  }

  /** The reads and checks of a checkout, in the handler's order: the buyer
      id, the buyer's cart, its items, and a product row for each.  It is
      `PlanCheckout` run against the store; its only role is to keep the
      proof of `Checkout` within budget. */
  method ValidateCheckout(db: Store, buyerId: Option<Id>) returns (r: Response<Plan, CheckoutError>)
    ensures r == PlanCheckout(db.carts, db.cartItems, db.products, buyerId)
  {
    if buyerId.None? {
      return Err(400, BuyerIdRequired);
    }
    var cart := FindCartOf(db.carts, buyerId.value);
    if cart.None? {
      return Err(400, CartIsEmpty);
    }
    var items := ItemsOfCart(db.cartItems, cart.value.id);
    if |items| == 0 {
      return Err(400, CartIsEmpty);
    }
    if !AllPriced(db.products, items) {
      return Err(500, CreateFailed);
    }
    r := Ok(201, Plan(cart.value.id, items));
  }

  /** `cartItem.deleteMany({ where: { cartId } })` */
  function DropCart(items: seq<CartItem>, cartId: Id): (r: seq<CartItem>)
    ensures forall x :: x in r <==> x in items && x.cartId != cartId
  {
    Filter(items, (x: CartItem) => x.cartId != cartId)
  }

  /** Deleting rows keeps every remaining identifier below the bound. */
  lemma DropCartKeepsIds(items: seq<CartItem>, cartId: Id, bound: nat)
    requires forall k :: 0 <= k < |items| ==> items[k].id < bound
    ensures forall k :: 0 <= k < |DropCart(items, cartId)| ==> DropCart(items, cartId)[k].id < bound
  {
    var r := DropCart(items, cartId);
    forall k | 0 <= k < |r| ensures r[k].id < bound {
      assert r[k] in items;
    }
  }

  /** The writes of a checkout: the order row, then `cartItem.deleteMany`. */
  method CommitCheckout(db: Store, order: Order, cartId: Id)
    requires db.Valid() && order.id == db.nextId
    modifies db
    ensures db.Valid()
    ensures db.orders == old(db.orders) + [order]
    ensures db.nextId == old(db.nextId) + 1
    ensures db.cartItems == DropCart(old(db.cartItems), cartId)
    ensures unchanged(db`products, db`farmers, db`buyers, db`admins, db`carts, db`chats, db`notifications)
  {
    DropCartKeepsIds(db.cartItems, cartId, db.nextId);
    db.orders := db.orders + [order];
    db.nextId := db.nextId + 1;
    db.cartItems := DropCart(db.cartItems, cartId);
  }

  /** After checkout no item of that cart is left, every item of any other
      cart is still there, and a cart already empty stays as it was. */
  lemma CheckoutEmptiesOnlyThatCart(items: seq<CartItem>, cartId: Id)
    ensures ItemsOfCart(DropCart(items, cartId), cartId) == []
    ensures ItemsOfCart(items, cartId) == [] ==> DropCart(items, cartId) == items
  {
    FilterKeepsNone(DropCart(items, cartId), (x: CartItem) => x.cartId == cartId);
    if ItemsOfCart(items, cartId) == [] {
      FilterKeepsAll(items, (x: CartItem) => x.cartId != cartId);
    }
  }

  // ---------------------------------------------------------------- listing

  /** `products: { some: { product: { farmerId } } }`: some item of the order
      names a product of that farmer. */
  predicate SoldBy(ps: seq<Product>, o: Order, farmerId: Id)
  {
    exists k :: 0 <= k < |o.items| && FindProduct(ps, o.items[k].productId).Some?
      && FindProduct(ps, o.items[k].productId).value.farmerId == farmerId
  }

  /** Which orders a `GET` selects: a buyer id wins over a farmer id, and
      with neither every order is selected. */
  predicate Selected(ps: seq<Product>, o: Order, buyerId: Option<Id>, farmerId: Option<Id>)
  {
    if buyerId.Some? then o.buyerId == buyerId.value
    else if farmerId.Some? then SoldBy(ps, o, farmerId.value)
    else true
  }

  /** The `GET` handler: the selected orders, newest first. */
  function ListOrders(os: seq<Order>, ps: seq<Product>, buyerId: Option<Id>, farmerId: Option<Id>)
    : (r: Response<seq<Order>, CheckoutError>)
    ensures r.Ok? && r.status == 200
    ensures forall o :: o in r.value <==> o in os && Selected(ps, o, buyerId, farmerId)
    ensures forall o :: o in os && Selected(ps, o, buyerId, farmerId) ==>
      multiset(r.value)[o] == multiset(os)[o]
    ensures forall i, j :: 0 <= i < j < |r.value| ==> r.value[i].createdAt >= r.value[j].createdAt
  {
    var selected := Filter(os, (o: Order) => Selected(ps, o, buyerId, farmerId));
    FilterCounts(os, (o: Order) => Selected(ps, o, buyerId, farmerId));
    Ok(200, NewestOrdersFirst(selected))
  }
}
