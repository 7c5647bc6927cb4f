/** `POST /api/orderv2`: placing an order from an explicit list of
    (product, quantity) lines.  Every line is checked against the current
    stock before anything is written; then one order is inserted, and then
    each ordered product's stock is decremented. */
module OrderV2 {
  import opened Common
  import opened Seqs
  import opened Entities
  import opened Db

  /** One requested line; `None` stands for a missing or falsy field. */
  datatype OrderLine = OrderLine(productId: Option<Id>, quantity: Option<int>)

  datatype PlaceOrderError =
    | MissingBuyerOrProducts
    | InvalidLine
    | ProductNotFound(productId: Id)
    | InsufficientStock(productName: string)

  function StatusOf(e: PlaceOrderError): nat
  {
    if e.ProductNotFound? then 404 else 400
  }

  /** The request-level check: a buyer and a non-empty list of lines. */
  predicate RequestShaped(buyerId: Option<Id>, products: Option<seq<OrderLine>>)
  {
    buyerId.Some? && products.Some? && |products.value| > 0
  }

  predicate WellFormed(line: OrderLine)
  {
    line.productId.Some? && line.quantity.Some? && line.quantity.value > 0
  }

  /** A line passes when it is well formed, names an existing product, and
      asks for no more than that product's current stock. */
  predicate LineAccepted(ps: seq<Product>, line: OrderLine)
  {
    && WellFormed(line)
    && FindProduct(ps, line.productId.value).Some?
    && line.quantity.value <= FindProduct(ps, line.productId.value).value.quantity
  }

  /** The error a single line draws, checked in the handler's order:
      shape, existence, stock. */
  function LineRejection(ps: seq<Product>, line: OrderLine): (r: Option<PlaceOrderError>)
    ensures r.None? <==> LineAccepted(ps, line)
    ensures r == Some(InvalidLine) <==> !WellFormed(line)
    ensures WellFormed(line) && FindProduct(ps, line.productId.value).None? ==> r == Some(ProductNotFound(line.productId.value))
    ensures (WellFormed(line) && FindProduct(ps, line.productId.value).Some? &&
             FindProduct(ps, line.productId.value).value.quantity < line.quantity.value) ==>
      r == Some(InsufficientStock(FindProduct(ps, line.productId.value).value.name))
  {
    if line.productId.None? || line.quantity.None? || line.quantity.value <= 0 then Some(InvalidLine)
    else match FindProduct(ps, line.productId.value)
      case None => Some(ProductNotFound(line.productId.value))
      case Some(p) =>
        if p.quantity < line.quantity.value then Some(InsufficientStock(p.name)) else None
  }

  /** The index of the first line that is refused, if any. */
  function FirstRejectedLine(ps: seq<Product>, lines: seq<OrderLine>): (r: Option<nat>)
    ensures r.None? <==> forall k :: 0 <= k < |lines| ==> LineAccepted(ps, lines[k])
    ensures r.None? ==> forall k :: 0 <= k < |lines| ==> WellFormed(lines[k])
    ensures r.Some? ==> r.value < |lines| && !LineAccepted(ps, lines[r.value])
    ensures r.Some? ==> forall k :: 0 <= k < r.value ==> LineAccepted(ps, lines[k])
  {
    FindIndex(lines, (l: OrderLine) => !LineAccepted(ps, l))
  }

  /** A refused line after accepted ones is the first refused line. */
  lemma FirstRejectedAt(ps: seq<Product>, lines: seq<OrderLine>, i: nat)
    requires i < |lines| && !LineAccepted(ps, lines[i])
    requires forall t :: 0 <= t < i ==> LineAccepted(ps, lines[t])
    ensures FirstRejectedLine(ps, lines) == Some(i)
  {
  }

  function ItemOf(line: OrderLine): OrderItem
    requires WellFormed(line)
  {
    OrderItem(line.productId.value, line.quantity.value)
  }

  /** The order items a list of lines becomes: the same (product, quantity)
      pairs, in the same order. */
  function ItemsOf(lines: seq<OrderLine>): (r: seq<OrderItem>)
    requires forall k :: 0 <= k < |lines| ==> WellFormed(lines[k])
    ensures |r| == |lines|
    ensures forall k :: 0 <= k < |lines| ==> r[k] == ItemOf(lines[k])
  {
    if |lines| == 0 then [] else [ItemOf(lines[0])] + ItemsOf(lines[1..])
  }

  // ---------------------------------------------------------------- totals

  /** What one item costs at the current price of its product. */
  function ItemValue(ps: seq<Product>, item: OrderItem): int
  {
    match FindProduct(ps, item.productId)
    case None => 0
    case Some(p) => p.price * item.quantity
  }

  /** Sum over the items of price times quantity, accumulated front to
      back as the handler's loop (and the checkout's `reduce`) does. */
  function Total(ps: seq<Product>, items: seq<OrderItem>): int
  {
    if |items| == 0 then 0
    else Total(ps, items[..|items| - 1]) + ItemValue(ps, items[|items| - 1])
  }

  /** The total of a concatenation is the sum of the totals. */
  lemma {:induction false} TotalAppend(ps: seq<Product>, a: seq<OrderItem>, b: seq<OrderItem>)
    ensures Total(ps, a + b) == Total(ps, a) + Total(ps, b)
    decreases |b|
  {
    if |b| == 0 {
      assert a + b == a;
    } else {
      var n := |b| - 1;
      assert (a + b)[..|a + b| - 1] == a + b[..n];
      assert (a + b)[|a + b| - 1] == b[n];
      TotalAppend(ps, a, b[..n]);
    }
  }

  // ---------------------------------------------------------------- stock

  /** `product.update({ where: { id }, data: { quantity: { decrement: q } } })` */
  function Decrement(ps: seq<Product>, id: Id, q: int): (r: seq<Product>)
    ensures |r| == |ps|
    ensures forall k :: 0 <= k < |ps| ==>
      r[k] == if ps[k].id == id then ps[k].(quantity := ps[k].quantity - q) else ps[k]
  {
    if |ps| == 0 then []
    else [if ps[0].id == id then ps[0].(quantity := ps[0].quantity - q) else ps[0]] + Decrement(ps[1..], id, q)
  }

  /** The stock after the second loop: one decrement per item, in order. */
  function DecrementAll(ps: seq<Product>, items: seq<OrderItem>): seq<Product>
  {
    if |items| == 0 then ps
    else
      var last := items[|items| - 1];
      Decrement(DecrementAll(ps, items[..|items| - 1]), last.productId, last.quantity)
  }

  /** How much of product `id` the items ask for altogether. */
  function Ordered(items: seq<OrderItem>, id: Id): int
  {
    if |items| == 0 then 0
    else
      var last := items[|items| - 1];
      Ordered(items[..|items| - 1], id) + (if last.productId == id then last.quantity else 0)
  }

  /** The shape of the stock change: every product keeps its place and all
      its other fields, and its quantity drops by the total ordered for it. */
  lemma {:induction false} DecrementAllEffect(ps: seq<Product>, items: seq<OrderItem>)
    ensures |DecrementAll(ps, items)| == |ps|
    ensures forall k :: 0 <= k < |ps| ==>
      DecrementAll(ps, items)[k] == ps[k].(quantity := ps[k].quantity - Ordered(items, ps[k].id))
    decreases |items|
  {
    if |items| > 0 {
      DecrementAllEffect(ps, items[..|items| - 1]);
    }
  }

  /** A product no item names is not ordered at all. */
  lemma {:induction false} OrderedUnnamed(items: seq<OrderItem>, id: Id)
    requires forall t :: 0 <= t < |items| ==> items[t].productId != id
    ensures Ordered(items, id) == 0
    decreases |items|
  {
    if |items| > 0 {
      OrderedUnnamed(items[..|items| - 1], id);
    }
  }

  /** When the items name distinct products, the total ordered for a named
      product is the quantity of its one item. */
  lemma {:induction false} OrderedDistinct(items: seq<OrderItem>, t: nat)
    requires t < |items|
    requires forall i, j :: 0 <= i < j < |items| ==> items[i].productId != items[j].productId
    ensures Ordered(items, items[t].productId) == items[t].quantity
    decreases |items|
  {
    var n := |items| - 1;
    var front := items[..n];
    if t == n {
      OrderedUnnamed(front, items[t].productId);
    } else {
      assert front[t] == items[t];
      OrderedDistinct(front, t);
    }
  }

  /** Products the order does not name keep their stock. */
  lemma UnnamedUnchanged(ps: seq<Product>, items: seq<OrderItem>, k: nat)
    requires k < |ps|
    requires forall t :: 0 <= t < |items| ==> items[t].productId != ps[k].id
    ensures |DecrementAll(ps, items)| == |ps| && DecrementAll(ps, items)[k] == ps[k]
  {
    DecrementAllEffect(ps, items);
    OrderedUnnamed(items, ps[k].id);
  }

  /** In a table with distinct ids, looking up a row's id finds that row. */
  lemma FindProductAt(ps: seq<Product>, k: nat)
    requires k < |ps|
    requires forall i, j :: 0 <= i < j < |ps| ==> ps[i].id != ps[j].id
    ensures FindProduct(ps, ps[k].id) == Some(ps[k])
  {
    var found := FindProduct(ps, ps[k].id).value;
    var m :| 0 <= m < |ps| && ps[m] == found;
    assert ps[m].id == ps[k].id;
  }

  /** With distinct product ids in the lines (and in the table), no product
      the order names is driven below zero: each was checked against a stock
      that only its own line draws on. */
  lemma NoOverdrawWhenDistinct(ps: seq<Product>, lines: seq<OrderLine>)
    requires forall i, j :: 0 <= i < j < |ps| ==> ps[i].id != ps[j].id
    requires FirstRejectedLine(ps, lines).None?
    requires forall i, j :: 0 <= i < j < |lines| ==> lines[i].productId != lines[j].productId
    ensures |DecrementAll(ps, ItemsOf(lines))| == |ps|
    ensures forall k :: 0 <= k < |ps| && ps[k].quantity >= 0 ==> DecrementAll(ps, ItemsOf(lines))[k].quantity >= 0
  {
    var items := ItemsOf(lines);
    DecrementAllEffect(ps, items);
    assert forall i, j :: 0 <= i < j < |items| ==> items[i].productId != items[j].productId by {
      forall i, j | 0 <= i < j < |items| ensures items[i].productId != items[j].productId {
        assert items[i] == ItemOf(lines[i]) && items[j] == ItemOf(lines[j]);
      }
    }
    forall k | 0 <= k < |ps| && ps[k].quantity >= 0
      ensures DecrementAll(ps, items)[k].quantity >= 0
    {
      NamedStockCovers(ps, lines, items, k);
    }
  }

  /** The per-product step of the lemma above. */
  lemma NamedStockCovers(ps: seq<Product>, lines: seq<OrderLine>, items: seq<OrderItem>, k: nat)
    requires forall i, j :: 0 <= i < j < |ps| ==> ps[i].id != ps[j].id
    requires FirstRejectedLine(ps, lines).None?
    requires items == ItemsOf(lines)
    requires forall i, j :: 0 <= i < j < |items| ==> items[i].productId != items[j].productId
    requires k < |ps| && ps[k].quantity >= 0
    ensures Ordered(items, ps[k].id) <= ps[k].quantity
  {
    if t :| 0 <= t < |items| && items[t].productId == ps[k].id {
      OrderedDistinct(items, t);
      assert LineAccepted(ps, lines[t]);
      assert items[t] == ItemOf(lines[t]);
      FindProductAt(ps, k);
    } else {
      OrderedUnnamed(items, ps[k].id);
    }
  }

  /** Duplicate lines for one product are each checked against the
      unchanged stock, so together they can take it below zero. */
  lemma DuplicateLinesOverdraw()
    ensures var ps := [Product(0, 0, "apples", "", 100, 1, "fruit", "", false, 0, 0)];
            var lines := [OrderLine(Some(0), Some(1)), OrderLine(Some(0), Some(1))];
            && FirstRejectedLine(ps, lines).None?
            && |DecrementAll(ps, ItemsOf(lines))| == 1
            && DecrementAll(ps, ItemsOf(lines))[0].quantity == -1
  {
    var ps := [Product(0, 0, "apples", "", 100, 1, "fruit", "", false, 0, 0)];
    var lines := [OrderLine(Some(0), Some(1)), OrderLine(Some(0), Some(1))];
    assert FindProduct(ps, 0) == Some(ps[0]);
    var items := ItemsOf(lines);
    DecrementAllEffect(ps, items);
    assert items[..1] == [items[0]] && items[..1][..0] == [];
    assert Ordered(items[..1], 0) == 1;
    assert Ordered(items, 0) == 2;
  }

  // ---------------------------------------------------------------- handler

  /** The handler's first loop: each line in turn is checked for shape,
      existence and stock, and the accepted lines are collected with a
      running total.  It stops at the first refused line. */
  method CheckLines(ps: seq<Product>, lines: seq<OrderLine>)
    returns (rejection: Option<PlaceOrderError>, details: seq<OrderItem>, totalPrice: int)
    ensures FirstRejectedLine(ps, lines).Some? ==>
      rejection == LineRejection(ps, lines[FirstRejectedLine(ps, lines).value])
    ensures rejection.None? <==> FirstRejectedLine(ps, lines).None?
    ensures rejection.None? ==> details == ItemsOf(lines) && totalPrice == Total(ps, details)
  {
    details, totalPrice := [], 0;
    var i := 0;
    while i < |lines|
      invariant 0 <= i <= |lines|
      invariant forall t :: 0 <= t < i ==> LineAccepted(ps, lines[t])
      invariant |details| == i
      invariant forall t :: 0 <= t < i ==> details[t] == ItemOf(lines[t])
      invariant totalPrice == Total(ps, details)
    {
      var line := lines[i];
      if line.productId.None? || line.quantity.None? || line.quantity.value <= 0 {
        FirstRejectedAt(ps, lines, i);
        return Some(InvalidLine), details, totalPrice;
      }
      var productData := FindProduct(ps, line.productId.value);
      if productData.None? {
        FirstRejectedAt(ps, lines, i);
        return Some(ProductNotFound(line.productId.value)), details, totalPrice;
      }
      if productData.value.quantity < line.quantity.value {
        FirstRejectedAt(ps, lines, i);
        return Some(InsufficientStock(productData.value.name)), details, totalPrice;
      }
      var item := OrderItem(line.productId.value, line.quantity.value);
      totalPrice := totalPrice + productData.value.price * line.quantity.value;
      assert (details + [item])[..|details|] == details;
      assert Total(ps, details + [item]) == totalPrice by {
        assert ItemValue(ps, item) == productData.value.price * line.quantity.value;
      }
      assert LineAccepted(ps, lines[i]);
      details := details + [item];
      i := i + 1;
    }
    rejection := None;
  }

  /** One more item is one more decrement. */
  lemma DecrementAllSnoc(ps: seq<Product>, items: seq<OrderItem>, j: nat)
    requires j < |items|
    ensures DecrementAll(ps, items[..j + 1])
      == Decrement(DecrementAll(ps, items[..j]), items[j].productId, items[j].quantity)
  {
    assert items[..j + 1][..j] == items[..j];
  }

  /** The handler's second loop: one stock decrement per item, in order. */
  method DecrementStock(db: Store, details: seq<OrderItem>)
    modifies db
    ensures db.products == DecrementAll(old(db.products), details)
    ensures unchanged(db`farmers, db`buyers, db`admins, db`carts, db`cartItems, db`orders, db`chats, db`notifications, db`nextId)
  {
    ghost var ps := db.products;
    var j := 0;
    while j < |details|
      invariant 0 <= j <= |details|
      invariant db.products == DecrementAll(ps, details[..j])
      invariant unchanged(db`farmers, db`buyers, db`admins, db`carts, db`cartItems, db`orders, db`chats, db`notifications, db`nextId)
    {
      DecrementAllSnoc(ps, details, j);
      db.products := Decrement(db.products, details[j].productId, details[j].quantity);
      j := j + 1;
    }
    assert details[..j] == details;
  }

  /** Decrementing stock keeps the product identifiers as they were: below
      the store's counter and distinct. */
  lemma DecrementKeepsIds(ps: seq<Product>, items: seq<OrderItem>, bound: nat)
    requires forall k :: 0 <= k < |ps| ==> ps[k].id < bound
    requires forall i, j :: 0 <= i < j < |ps| ==> ps[i].id != ps[j].id
    ensures var qs := DecrementAll(ps, items);
      && (forall k :: 0 <= k < |qs| ==> qs[k].id < bound)
      && (forall i, j :: 0 <= i < j < |qs| ==> qs[i].id != qs[j].id)
  {
    DecrementAllEffect(ps, items);
  }

  /** The handler.  A refused request leaves the store exactly as it was; an
      accepted one adds exactly one order, whose items are the lines and
      whose total is their price sum, and decrements the named stock. */
  method PlaceOrder(db: Store, buyerId: Option<Id>, products: Option<seq<OrderLine>>, now: int)
    returns (r: Response<Order, PlaceOrderError>)
    requires db.Valid()
    modifies db
    ensures db.Valid()
    ensures !RequestShaped(buyerId, products) ==>
      r == Err(400, MissingBuyerOrProducts) && unchanged(db)
    ensures RequestShaped(buyerId, products) && FirstRejectedLine(old(db.products), products.value).Some? ==>
      var e := LineRejection(old(db.products), products.value[FirstRejectedLine(old(db.products), products.value).value]).value;
      r == Err(StatusOf(e), e) && unchanged(db)
    ensures RequestShaped(buyerId, products) && FirstRejectedLine(old(db.products), products.value).None? ==>
      var items := ItemsOf(products.value);
      && r == Ok(201, Order(old(db.nextId), buyerId.value, Total(old(db.products), items),
                           db.defaults.orderStatus, items, now))
      && db.orders == old(db.orders) + [r.value]
      && db.products == DecrementAll(old(db.products), items)
      && db.nextId == old(db.nextId) + 1
      && unchanged(db`farmers, db`buyers, db`admins, db`carts, db`cartItems, db`chats, db`notifications)
  {
    if buyerId.None? || products.None? || |products.value| == 0 {
      return Err(400, MissingBuyerOrProducts);
    }
    var rejection, details, totalPrice := CheckLines(db.products, products.value);
    if rejection.Some? {
      return Err(StatusOf(rejection.value), rejection.value);
    }

    var order := CommitOrder(db, buyerId.value, totalPrice, details, now);
    r := Ok(201, order);
  }

  /** The writes of an accepted request: the order row is created, then the
      stock of every item is decremented. */
  method CommitOrder(db: Store, buyerId: Id, totalPrice: int, details: seq<OrderItem>, now: int)
    returns (order: Order)
    requires db.Valid()
    modifies db
    ensures db.Valid()
    ensures order == Order(old(db.nextId), buyerId, totalPrice, db.defaults.orderStatus, details, now)
    ensures db.orders == old(db.orders) + [order]
    ensures db.products == DecrementAll(old(db.products), details)
    ensures db.nextId == old(db.nextId) + 1
    ensures unchanged(db`farmers, db`buyers, db`admins, db`carts, db`cartItems, db`chats, db`notifications)
  {
    order := Order(db.nextId, buyerId, totalPrice, db.defaults.orderStatus, details, now);
    InsertOrder(db, order);
    DecrementKeepsIds(db.products, details, db.nextId);
    DecrementStock(db, details);
  }

  /** `order.create`: the new row takes the next identifier. */
  method InsertOrder(db: Store, order: Order)
    requires db.Valid() && order.id == db.nextId
    modifies db
    ensures db.Valid()
    ensures db.orders == old(db.orders) + [order]
    ensures db.nextId == old(db.nextId) + 1
    ensures unchanged(db`products, db`farmers, db`buyers, db`admins, db`carts, db`cartItems, db`chats, db`notifications)
  {
    db.orders := db.orders + [order];
    db.nextId := db.nextId + 1;
  }
}
