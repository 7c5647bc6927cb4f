/** `/api/cart`: adding a line to a buyer's cart, reading the cart, and the
    method dispatcher in front of both. */
module CartApi {
  import opened Common
  import opened Seqs
  import opened Entities
  import opened Db

  datatype CartError =
    | MethodNotAllowed(allow: seq<HttpMethod>)
    | CartNotFound
    /** The insert failed: no buyer id to look the cart up by, or a product
        id the `connect` cannot find. */
    | AddFailed

  /** A cart item with its product joined in (`include: { product: true }`). */
  datatype CartLine = CartLine(item: CartItem, product: Option<Product>)

  datatype CartView = CartView(cart: Cart, lines: seq<CartLine>)

  /** What the dispatcher can answer with. */
  datatype CartReply = Added(item: CartItem) | Fetched(cart: Option<CartView>)

  // ---------------------------------------------------------------- addToCart

  /** `addToCart`.  It needs an existing cart (none is created on the fly)
      and always inserts a fresh line, even when the cart already holds that
      product. */
  method AddToCart(db: Store, m: HttpMethod, buyerId: Option<Id>, productId: Option<Id>, quantity: int)
    returns (r: Response<CartItem, CartError>)
    requires db.Valid()
    modifies db
    ensures db.Valid()
    ensures unchanged(db`products, db`farmers, db`buyers, db`admins, db`carts, db`orders, db`chats, db`notifications)
    ensures m != POST ==> r == Err(405, MethodNotAllowed([POST])) && unchanged(db)
    ensures m == POST && buyerId.None? ==> r == Err(500, AddFailed) && unchanged(db)
    ensures m == POST && buyerId.Some? && FindCartOf(db.carts, buyerId.value).None? ==>
      r == Err(404, CartNotFound) && unchanged(db)
    ensures m == POST && buyerId.Some? && FindCartOf(db.carts, buyerId.value).Some? ==>
      var cart := FindCartOf(db.carts, buyerId.value).value;
      && (productId.None? || FindProduct(db.products, productId.value).None? ==>
            r == Err(500, AddFailed) && unchanged(db))
      && (productId.Some? && FindProduct(db.products, productId.value).Some? ==>
            && r == Ok(201, CartItem(old(db.nextId), cart.id, productId.value, quantity))
            && db.cartItems == old(db.cartItems) + [r.value]
            && db.nextId == old(db.nextId) + 1)
  {
    if m != POST {
      return Err(405, MethodNotAllowed([POST]));
    }
    if buyerId.None? {
      return Err(500, AddFailed);
    }
    var cart := FindCartOf(db.carts, buyerId.value);
    if cart.None? {
      return Err(404, CartNotFound);
    }
    if productId.None? || FindProduct(db.products, productId.value).None? {
      return Err(500, AddFailed);
    }
    var item := CartItem(db.nextId, cart.value.id, productId.value, quantity);
    db.cartItems := db.cartItems + [item];
    db.nextId := db.nextId + 1;
    r := Ok(201, item);
  }

  /** Adding the same product twice leaves two separate lines in the cart:
      lines are never merged. */
  lemma AddTwiceKeepsTwoLines(items: seq<CartItem>, a: CartItem, b: CartItem)
    requires a.cartId == b.cartId && a.productId == b.productId && a.id != b.id
    ensures var after := ItemsOfCart(items + [a] + [b], a.cartId);
      a in after && b in after && |after| == |ItemsOfCart(items, a.cartId)| + 2
  {
    var p := (x: CartItem) => x.cartId == a.cartId;
    FilterAppend(items, [a], p);
    FilterAppend(items + [a], [b], p);
    assert Filter([a], p) == [a];
    assert Filter([b], p) == [b];
  }

  // ---------------------------------------------------------------- getCart

  function LineFor(ps: seq<Product>, item: CartItem): CartLine
  {
    CartLine(item, FindProduct(ps, item.productId))
  }

  function LinesFor(ps: seq<Product>, items: seq<CartItem>): (r: seq<CartLine>)
    ensures |r| == |items|
    ensures forall k :: 0 <= k < |items| ==> r[k] == LineFor(ps, items[k])
  {
    if |items| == 0 then [] else [LineFor(ps, items[0])] + LinesFor(ps, items[1..])
  }

  /** `getCart`, a read: the buyer's cart with its items and their
      products, or `null` when the buyer has none.  A missing buyer id is
      looked up as the text "undefined", which names no buyer. */
  function GetCart(carts: seq<Cart>, cartItems: seq<CartItem>, ps: seq<Product>, m: HttpMethod, buyerId: Option<Id>)
    : (r: Response<Option<CartView>, CartError>)
    ensures m != GET <==> r == Err(405, MethodNotAllowed([GET]))
    ensures m == GET ==> r.Ok? && r.status == 200
    ensures m == GET ==> (r.value.None? <==> buyerId.None? || FindCartOf(carts, buyerId.value).None?)
    ensures m == GET && r.value.Some? ==>
      var lines := r.value.value.lines;
      var items := ItemsOfCart(cartItems, r.value.value.cart.id);
      && Some(r.value.value.cart) == FindCartOf(carts, buyerId.value)
      && r.value.value.cart in carts && r.value.value.cart.buyerId == buyerId.value
      && |lines| == |items|
      && forall k :: 0 <= k < |lines| ==>
           lines[k].item == items[k] && lines[k].item.cartId == r.value.value.cart.id
           && lines[k].product == FindProduct(ps, items[k].productId)
  {
    if m != GET then Err(405, MethodNotAllowed([GET]))
    else if buyerId.None? then Ok(200, None)
    else match FindCartOf(carts, buyerId.value)
      case None => Ok(200, None)
      case Some(cart) => Ok(200, Some(CartView(cart, LinesFor(ps, ItemsOfCart(cartItems, cart.id)))))
  }

  // ---------------------------------------------------------------- dispatcher

  /** The default export: `POST` adds, `GET` reads, anything else is
      refused with both methods allowed. */
  method Dispatch(db: Store, m: HttpMethod, buyerId: Option<Id>, productId: Option<Id>, quantity: int)
    returns (r: Response<CartReply, CartError>)
    requires db.Valid()
    modifies db
    ensures db.Valid()
    ensures m != POST ==> unchanged(db)
    ensures m != POST && m != GET ==> r == Err(405, MethodNotAllowed([POST, GET]))
    ensures m == GET ==>
      var g := GetCart(db.carts, db.cartItems, db.products, GET, buyerId);
      r == Ok(g.status, Fetched(g.value))
    ensures unchanged(db`products, db`farmers, db`buyers, db`admins, db`carts, db`orders, db`chats, db`notifications)
    ensures m == POST && buyerId.None? ==> r == Err(500, AddFailed) && unchanged(db)
    ensures m == POST && buyerId.Some? && FindCartOf(db.carts, buyerId.value).None? ==>
      r == Err(404, CartNotFound) && unchanged(db)
    ensures m == POST && buyerId.Some? && FindCartOf(db.carts, buyerId.value).Some? ==>
      var cart := FindCartOf(db.carts, buyerId.value).value;
      && (productId.None? || FindProduct(db.products, productId.value).None? ==>
            r == Err(500, AddFailed) && unchanged(db))
      && (productId.Some? && FindProduct(db.products, productId.value).Some? ==>
            && r == Ok(201, Added(CartItem(old(db.nextId), cart.id, productId.value, quantity)))
            && db.cartItems == old(db.cartItems) + [CartItem(old(db.nextId), cart.id, productId.value, quantity)]
            && db.nextId == old(db.nextId) + 1)
  {
    if m == POST {
      var added := AddToCart(db, m, buyerId, productId, quantity);
      match added
      case Ok(status, item) => r := Ok(status, Added(item));
      case Err(status, e) => r := Err(status, e);
      case NoResponse => r := NoResponse;
    } else if m == GET {
      var got := GetCart(db.carts, db.cartItems, db.products, m, buyerId);
      r := Ok(got.status, Fetched(got.value));
    } else {
      r := Err(405, MethodNotAllowed([POST, GET]));
    }
  }
}
